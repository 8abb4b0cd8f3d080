# PatchHarbor: Exchange ledger, Apply and recovery, payloads, registration and formats

A Dafny model of the core of PatchHarbor and proofs of what that core promises.

**Exchange.** `ExchangeLedger` is the persistent ledger, one record per (path, SHA-256) identity, with its five
operations as functions; `LedgerStore` performs them on the stored document. `CommitGraph` and `ArchiveGit` give the
ground truth of ancestry and the proofs built on it. `ExchangeProtocol` is the state machine in which Apply runs, recovery
passes, archival passes, users and crashes interleave step by step; `ExchangeInvariant`, `ExchangeSteps` and
`ExchangeTheorems` prove its safety over every schedule, `ExchangeEvents` restates it about the events of schedules alone,
`ExchangeCompletions` says where recorded completion commits come from. `ExchangeSchedules` joins and splits schedules;
`ExchangeCrashRecovery` and `ExchangeRun` prove that the two intended courses really succeed and lead to the same record,
`ExchangeArchival` that a pass archives what it should, and `ExchangeMaintenance` runs the loops of the two passes as
schedules of the protocol. `LedgerCodec` is the stored form and its older versions, `ClassificationCache` the scan in front
of direct classification.

**Repository writes.** `BundlePaths` decides which member lists are one portable tree, `MemberTrees` puts such lists
together, `RepositoryPaths` gives the rules for single paths and names, `PayloadTree` writes validated
payloads into a repository, `Registration` commits a repository identity over local files and the central map.

**Formats and streams.** `StagedDiff`, `GitObjects`, `TreeListings`, `ZipDirectory`, `WideArchives`, `TerminalFilter`,
`OutputCapture`, `ResultBundle` and `ResultReader` prove byte and text algorithms against simple specifications, and the
accepting ones against the printed form of what they accept.

## What is taken as given

- SHA-256 is injective: a digest stands for the bytes it was computed from, and identical bytes under another path are
  another identity.
- A file lock is exclusive and is released when its process ends; replacing a file is atomic.
- `git merge-base --all` prints every maximal common ancestor once, in any order; object names are hashes over parents,
  so the commit graph has no cycle.
- Run identifiers and new repository identifiers are fresh random UUIDs.
- Case folding maps one character at a time, neither makes nor removes a separator, and is lower case on ASCII texts; the
  file system tells apart at least what folding tells apart. Case folding, Unicode categories, path normal forms, hashes and
  the path rule of `GitObjects` are function parameters.
- Nobody copies the bytes of a captured temporary Result before it is pinned or published (`IsPrivate`): a user may put any
  other bytes anywhere, but not these.
- Scans skip names with temporary suffixes, so a Result is invisible until it is renamed (`src/patchharbor/bundle_names.py:10-17`).

## Reading the protocol

- A step is one check-then-act pair; a crash may fall between any two steps. A `Stop` is both a crash and an orderly end.
- Steps named `A...` belong to a run, `P...` to a pass, `U...` to users and the outside world, who may put, remove or
  replace files and rewrite repositories at any time, lock or no lock. Registry locks and repeated configuration checks are
  part of the step they guard.
- A Result publication that fails does not prevent the outcome from being recorded, as in
  `src/patchharbor/application_results.py:144-162`; a state mismatch at the last recheck records nothing.
- The undisturbed run of `ExchangeRun` is one whose Result passes its verification; what that takes of the snapshot is in
  `ResultReader`.

## Findings

What the code does not do, each with its input and its exact condition.

- `ResultReader.ReaderAcceptsTheWriter`: the capture compares whole paths, the reader of an archive also compares
  directories. A snapshot with `Foo/a` and `foo/b`, or with `Foo` and `foo/bar`, is captured and written, and then fails its
  own verification (`CollidingDirectoriesAreRefused`). It is readable exactly if committed and untracked files are each one
  tree, which for captured files is a condition on their directories (`OnlyDirectoriesDecide`), and the version in the start
  archive's name has at most 112 characters.
- `Registration.SeparationIsKeptExactlyWhen`: a registration checks the new repository against the exchange directories of
  the others, not the others against the one the new repository brings along (`ReturningRepositoryLosesSeparation`).
- `TerminalFilter.StreamEqualsBatch`: the child filter and `sanitize_visible_text` treat carriage returns, C1 controls and
  doubled escapes differently; on text without the last two they agree exactly if no carriage return is met as text, and
  `C1IntroducerDiffers`, `StringTerminatorDiffers` and `DoubleEscapeDiffers` show the other families.
- `ZipDirectory.StrictMeetsWide`: the two ZIP preflights are not nested; the exceptions are named exactly.

## Model

| member | source | states |
|---|---|---|
| `ExchangeLedger.MergeKeepsKnownAndAddsFirst` | src/patchharbor/exchange_state.py:522-545 | An accepted merge only appends: a known identity keeps its record, a new one gets its first candidate, nothing else appears |
| `ExchangeLedger.MergeRefusedIffConflict` | src/patchharbor/exchange_state.py:522-545 | A merge is refused if and only if some identity is claimed with two different classifications, among the candidates or against the ledger |
| `ExchangeLedger.MergeKeepsValidity` | src/patchharbor/exchange_state.py:155-207 | Merging valid records keeps every record invariant and the uniqueness of identities |
| `ExchangeLedger.LifecycleEffect` | src/patchharbor/exchange_state.py:548-696 | An accepted start, finish, pin or recovery replaces exactly the record it names, along the lifecycle, and leaves every other lookup as it was |
| `ExchangeLedger.AttemptStartsExactlyWhen` | src/patchharbor/exchange_state.py:548-584 | Exactly which attempts may start: fresh ones, failed ones on a retry request, any on an explicit request, and only for the recorded package and binding; and every record afterwards |
| `ExchangeLedger.OutcomeIsTakenExactlyWhen` | src/patchharbor/exchange_state.py:587-622 | Exactly which outcomes are taken: of the current run of that package and binding, with a fitting completion commit only for a success; and every record afterwards |
| `ExchangeLedger.DigestIsPinnedExactlyWhen` | src/patchharbor/exchange_state.py:641-667 | Exactly which digests are pinned: well-formed ones, for the current run of that binding, and never a second one; and every record afterwards |
| `ExchangeLedger.AttemptIsSwappedExactlyWhen` | src/patchharbor/exchange_state.py:670-696 | Exactly which attempts are swapped to succeeded: those stored as expected in every field, with a run and a pinned digest; and every record afterwards |
| `ExchangeLedger.EveryOperationKeepsTheLedger` | src/patchharbor/exchange_state.py:522-696 | Every operation, accepted or refused, keeps validity, drops no identity, changes no kind or manifest, and changes at most one record and only along the lifecycle (only the current run pins or finishes) |
| `ExchangeLedger.EveryRunKeepsTheLedger` | src/patchharbor/exchange_state.py:522-696 | Over any sequence of operations validity holds, identities keep position and classification, and an attempted identity never reads as fresh again |
| `ExchangeLedger.SuccessIsLeftOnlyByExplicitSelection` | src/patchharbor/exchange_state.py:548-584 | A succeeded record stays exactly as it is over any sequence of operations without an explicit start for it |
| `LedgerStore.LedgerFile.MergeClassifications` | src/patchharbor/exchange_state.py:522-545 | The locked merge loop succeeds exactly if the lock is free, the ledger takes the merge, and a changed document can be written; otherwise the document stays as it was |
| `LedgerStore.LedgerFile.ApplyStarted` | src/patchharbor/exchange_state.py:548-584 | The locked start succeeds exactly if the lock is free, the identity check succeeds, the ledger takes the start and the document can be written; otherwise the document stays as it was |
| `LedgerStore.LedgerFile.ApplyFinished` | src/patchharbor/exchange_state.py:587-622 | The locked finish succeeds exactly if the lock is free, the ledger takes the outcome and the document can be written; otherwise the document stays as it was |
| `LedgerStore.LedgerFile.ResultDigestRecorded` | src/patchharbor/exchange_state.py:641-667 | The locked pin succeeds exactly if the lock is free, the ledger takes the digest and the document can be written; otherwise the document stays as it was |
| `LedgerStore.LedgerFile.RecoveredFinished` | src/patchharbor/exchange_state.py:670-696 | The locked compare-and-swap succeeds exactly if the lock is free, the proof callback succeeds, the ledger takes the swap and the document can be written; otherwise the document stays as it was |
| `CommitGraph.SoleMergeBaseIffReached` | src/patchharbor/archive_git.py:31-45 | In every commit graph the set of maximal common ancestors is exactly {A} if and only if A reaches D |
| `CommitGraph.AncestorTestDecidesReachability` | src/patchharbor/archive_git.py:31-45 | The test "all printed merge bases are exactly A" decides ancestry, whatever order Git prints them in |
| `CommitGraph.GrowthKeepsReachability` | src/patchharbor/archive_git.py:31-45 | New commits neither add nor remove ancestry between known ones |
| `ArchiveGit.AncestorMeans` | src/patchharbor/archive_git.py:31-45 | The answer is yes exactly for a commit and its ancestor-or-self; a known object that is no commit is a plain no; it is an error exactly if the ancestor is unknown, or is a commit and the descendant is unknown |
| `ArchiveGit.CompletionIsACleanStrictDescendant` | src/patchharbor/archive_git.py:48-62 | A completion commit exists exactly for a clean move of the same repository to a strict descendant in original history, and exactly when the question is an error |
| `ArchiveGit.PatchObsoleteMeans` | src/patchharbor/archive_git.py:65-91 | A package is proven obsolete exactly when its recorded success lies strictly after its base and on the way to clean HEAD, and exactly when the question is an error |
| `ArchiveGit.ResultStateMeans` | src/patchharbor/archive_git.py:94-110 | A Result proves a state exactly when its commit is an ancestor of clean HEAD and its inventory is that commit's tree, and exactly when the question is an error |
| `ArchiveGit.ResultObsoleteMeans` | src/patchharbor/archive_git.py:88-110 | A Result is proven obsolete exactly when its commit is not clean HEAD itself but reached from it in original history and its inventory is that commit's tree; other files never are |
| `ArchiveGit.ObsoleteStaysObsolete` | src/patchharbor/archive_git.py:65-110 | What is proven obsolete stays proven obsolete after every clean forward move of HEAD |
| `ExchangeInvariant.CaptureKeeps` | src/patchharbor/result_bundle_publication.py:300-324 | Writing and verifying the temporary Result keeps the protocol invariant, with its digest tied to its run and repository state |
| `ExchangeInvariant.PublishKeeps` | src/patchharbor/result_bundle_publication.py:329-343 | Renaming the Result into place keeps the protocol invariant |
| `ExchangeInvariant.StopKeeps` | src/patchharbor/exchange_recovery.py:129-131 | A crash between any two steps, which frees the lock, keeps the protocol invariant |
| `ExchangeInvariant.LoadKeeps` | src/patchharbor/exchange_archive.py:87-90 | The lists of pending attempts and pinned digests, read once without a lock, are exact when read and stay safe to use |
| `ExchangeInvariant.RepositoryChangeKeeps` | src/patchharbor/exchange_recovery.py:134-155 | Any outside change of any repository at any time keeps the protocol invariant |
| `ExchangeArchival.TheOutsideIsFree` | src/patchharbor/exchange_recovery.py:134-155 | The protocol holds nothing back from the outside world: any file may be removed, any bytes but a private Result's put anywhere, any repository brought into any state, at any time |
| `ExchangeArchival.AnyoneMayStop` | src/patchharbor/exchange_recovery.py:129-131 | Any agent may end at any moment, and only its own lock goes with it |
| `ExchangeArchival.OthersMayWork` | src/patchharbor/exchange_state.py:522-545 | Others may hold any free repository lock, and a scan may publish exactly the valid new classifications that contradict neither each other nor the ledger |
| `ExchangeSteps.LockExcludesOtherOwners` | src/patchharbor/apply_mutation.py:132-159 | While a run holds the lock of its repository no other live run is inside an attempt of the same identity |
| `ExchangeSteps.AttemptKeeps` | src/patchharbor/application_exchange.py:129-161 | Recording an attempt keeps the protocol invariant |
| `ExchangeSteps.PinKeeps` | src/patchharbor/application_exchange.py:163-171 | Pinning a digest keeps the protocol invariant, including what stale archival lists may still rely on |
| `ExchangeSteps.OutcomeKeeps` | src/patchharbor/application_results.py:89-116 | Recording the outcome keeps the protocol invariant |
| `ExchangeSteps.RecoverKeeps` | src/patchharbor/exchange_recovery.py:129-163 | Swapping an orphaned attempt to succeeded keeps the protocol invariant |
| `ExchangeTheorems.LedgerChangesAreOperations` | src/patchharbor/exchange_state.py:522-696 | Every protocol step changes the ledger only through one of the ledger's own operations |
| `ExchangeTheorems.StepKeepsInv` | src/patchharbor/application_apply.py:249-290 | Every step of runs, passes, users and crashes keeps the whole invariant |
| `ExchangeTheorems.EveryScheduleIsSafe` | src/patchharbor/application_apply.py:249-290 | Every state of every schedule, crashes included, satisfies the invariant |
| `ExchangeTheorems.PinnedDigestsAreHonest` | src/patchharbor/result_bundle.py:436-457 | Every pinned digest belongs to a run that exited zero, with a clean strict-descendant completion commit at capture time |
| `ExchangeTheorems.PinnedReceiptMatches` | src/patchharbor/exchange_recovery.py:49-57 | Usable bytes behind a pinned digest carry exactly the receipt its record asks for |
| `ExchangeTheorems.LockMeansNoLiveRun` | src/patchharbor/exchange_recovery.py:127-131 | Under the repository lock no live Apply run holds it or is still inside the pinned attempt |
| `ExchangeTheorems.RecoveryIsSound` | src/patchharbor/exchange_recovery.py:49-167 | Recovery marks an attempt succeeded only if the named run exited zero and pinned exactly the published bytes, with the run's clean HEAD, strictly after the patch base, as completion commit; the package lies there unchanged, the locked repository is clean, original, its HEAD reaches that commit and the Result's inventory is the commit's tree; and no live run is in the way |
| `ExchangeTheorems.IntactOrphanIsRecoverable` | src/patchharbor/exchange_recovery.py:98-167 | An intact orphan whose repository is clean and still contains the run's commit is always recoverable by a pass that listed it |
| `ExchangeTheorems.StillContainsAfterForwardMoves` | src/patchharbor/exchange_recovery.py:134-155 | Recoverability persists: what a clean repository contains for recovery, it contains after every clean forward move of HEAD |
| `ExchangeTheorems.ArchivalSparesPinnedResults` | src/patchharbor/exchange_archive.py:84-187 | Archival never moves a Result that an attempted record still pins, although its list of pins may be stale |
| `ExchangeTheorems.ArchivalIsProven` | src/patchharbor/exchange_archive.py:139-163 | Archival takes only a file that lies there as scanned and names the locked, clean, original repository: a package whose recorded success lies strictly after its base on the way to HEAD, or a Result of a commit strictly before HEAD with that commit's tree as inventory; and it only removes that file |
| `ExchangeTheorems.SupersededFileIsArchived` | src/patchharbor/exchange_archive.py:124-177 | The converse: such a file, scanned and not listed as pinned, is archived by the pass that holds the lock |
| `ExchangeArchival.UndisturbedPassArchives` | src/patchharbor/exchange_archive.py:84-187 | From every reachable state one undisturbed pass archives a superseded, unpinned file of a free repository and leaves everything else as it was |
| `ExchangeTheorems.AtMostOneAutomaticMutation` | src/patchharbor/application_exchange.py:478-494 | Over every schedule at most one automatic run per identity enters the payload-write phase |
| `ExchangeTheorems.AttemptPrecedesWrites` | src/patchharbor/apply_mutation.py:132-159 | Inside an attempt the ledger holds exactly that attempt: it is recorded before any payload write and kept to the end |
| `ExchangeTheorems.AttemptIsRechecked` | src/patchharbor/apply_mutation.py:132-150 | An attempt is recorded only under the run's lock, with the manifest's exact binding, unchanged since the lock was taken, while the package lies there, and over a fresh, retried or explicitly selected record; the new record is exactly the run's |
| `ExchangeTheorems.ResultIsPinnedBeforeItAppears` | src/patchharbor/result_bundle_publication.py:324-343 | A Result with a completion commit appears only when the ledger already pins its digest for the running attempt, on a path that was free, displacing nothing |
| `ExchangeEvents.StepHistory` | src/patchharbor/application_apply.py:249-290 | Every step records starts, exits and writes as they happen, and a run keeps its task for life |
| `ExchangeEvents.OneAutomaticRunWrites` | src/patchharbor/application_exchange.py:478-494 | In every schedule from the start, of all runs started automatically for one identity at most one ever enters the payload-write phase: a statement about the events alone |
| `ExchangeTheorems.SuccessMeansExitZero` | src/patchharbor/application_results.py:137-162 | Every recorded success that names a run goes back to an entrypoint that exited zero |
| `ExchangeEvents.SuccessHasItsExit` | src/patchharbor/application_results.py:137-162 | In every schedule from the start, each recorded success that names a run goes back to the event in which that run's entrypoint exited zero |
| `ExchangeEvents.CaptureIsAnEvent` | src/patchharbor/result_bundle.py:436-457 | In every schedule from the start, captured bytes that prove anything were captured without warnings in an event of the schedule, by a run that had exited zero, from a clean HEAD whose binding and tree they state |
| `ExchangeEvents.RecoveredResultWasCaptured` | src/patchharbor/exchange_recovery.py:98-167 | Recovery uses only Results whose run exited zero and then captured them without warnings, both events of the schedule |
| `ExchangeCompletions.CompletionIsAStrictDescendant` | src/patchharbor/application_results.py:89-116 | Every completion commit in every reachable ledger was, when its run recorded its outcome or captured its Result, the clean HEAD of the same repository in original history, strictly after the package base; and that run exited zero |
| `ExchangeTheorems.OwnerIsNeverRefused` | src/patchharbor/exchange_state.py:587-667 | No interleaving makes the ledger refuse the digest or the outcome of the run that owns the attempt |
| `ExchangeCrashRecovery.CrashAfterPublicationRecovers` | src/patchharbor/exchange_recovery.py:70-167 | From every reachable state, a crash right after publication followed by one recovery pass ends with the success recorded with the run's completion commit |
| `ExchangeRun.UndisturbedRunSucceeds` | src/patchharbor/application_apply.py:249-290 | From every reachable state with a ready package, exactly that schedule is possible and ends with the Result published, the digest pinned, the success recorded with the new commit, and the lock free |
| `ExchangeRun.NewPackageIsApplied` | src/patchharbor/application_apply.py:249-290 | From every reachable state, the empty start included, a scan of a new package for a free repository followed by one undisturbed run ends the same way |
| `ExchangeRun.CrashedRunIsRecovered` | src/patchharbor/exchange_recovery.py:70-167 | The same run crashed right after publication, with one recovery pass, ends with the very record of the undisturbed run |
| `ExchangeMaintenance.ArchiveArtifacts` | src/patchharbor/exchange_archive.py:55-197 | One archival pass as a schedule of the protocol with arbitrary events of others between its steps, started from the lists its agent loaded: remaining and archived together are exactly the scanned files, the archived ones are exactly those the pass's own events moved, each unpinned and proven superseded when it was moved, none excluded, and none without the lock |
| `ExchangeMaintenance.ArchivedFilesAreSuperseded` | src/patchharbor/exchange_archive.py:84-187 | In every schedule from a reachable state, each file an agent's own events archive was, right before its move, present, pinned by no attempted record, and proven superseded by the locked repository its bytes name |
| `ExchangeMaintenance.EveryAllowedMoveIsACandidate` | src/patchharbor/exchange_archive.py:84-122 | The loop misses nothing: every move the protocol allows its agent is a candidate, unless the path is excluded |
| `ExchangeMaintenance.RecoverRecord` | src/patchharbor/exchange_recovery.py:98-167 | Copies of the pinned Result are tried in scan order: the first that proves is the only recovery, and without one every copy was tried |
| `ExchangeMaintenance.RecoverArtifacts` | src/patchharbor/exchange_recovery.py:70-183 | One recovery pass as a schedule of the protocol with arbitrary events of others before and inside each attempt, started from the pending list its agent loaded: its own events recover exactly the reported attempts, honestly and while the repository still contains the commit, and statuses are refreshed from the ledger at the end only after a recovery |
| `ExchangeMaintenance.EveryRecoveryIsHonest` | src/patchharbor/exchange_recovery.py:98-167 | In every schedule from a reachable state, each success an agent's own events record belongs to a run that exited zero and pinned exactly the bytes then published, while the locked clean repository still contains that run's commit with the Result's inventory as its tree, and carries that commit right after |
| `ExchangeMaintenance.EveryAllowedRecoveryIsConsidered` | src/patchharbor/exchange_recovery.py:98-133 | The loop misses nothing: every swap the protocol allows its agent is one of the pairs it goes through |
| `BundlePaths.NodeMap.Register` | src/patchharbor/bundle_paths.py:94-113 | One registration: accepted exactly when the node of the folded path agrees, and then entered; the error names the disagreement |
| `BundlePaths.AgreementIsAcceptability` | src/patchharbor/bundle_paths.py:86-134 | Pairwise agreement of all registered paths and ancestors is exactly the declarative rule |
| `BundlePaths.ValidateMemberPaths` | src/patchharbor/bundle_paths.py:86-134 | A list is accepted if and only if no path repeats, no two paths or ancestors differ only by case, and no file is an ancestor of another member |
| `BundlePaths.AcceptanceIgnoresOrder` | src/patchharbor/bundle_paths.py:86-134 | Acceptance depends on the members, not on their order |
| `BundlePaths.InventoryPathsAgree` | scripts/pyz_bootstrap.py:386-404 | The folded-set and directory-map check of the archive inventory accepts exactly the file lists the member validator accepts |
| `PayloadTree.ModesAreNeverWidened` | src/patchharbor/payload_modes.py:30-37 | A new file never grants shared write access or special bits; an existing ordinary mode always survives |
| `PayloadTree.RequestedModesByDigits` | src/patchharbor/payload_modes.py:4-37 | Which modes a package may request and which an existing file may keep, digit by octal digit |
| `PayloadTree.ValidatedPathsAreSeparate` | src/patchharbor/bundle_paths.py:86-134 | Validated payloads stay apart on every file system whose name identity folding covers |
| `PayloadTree.NextTargetIsUntouched` | src/patchharbor/payload_files.py:175-184 | After any number of earlier writes the next target is as free, with the same mode, as it was at validation |
| `PayloadTree.RepositoryTree.WalkParents` | src/patchharbor/payload_files.py:75-101 | The parent walk creates only missing ancestors, in order, and stops at the first obstacle |
| `PayloadTree.RepositoryTree.InspectTarget` | src/patchharbor/payload_files.py:116-126 | Inspection succeeds exactly on free targets with acceptable modes when nothing fails outside, and reports the state found |
| `PayloadTree.RepositoryTree.ValidateTargets` | src/patchharbor/payload_files.py:140-159 | Validation creates nothing and accepts exactly portable path lists with free targets |
| `PayloadTree.RepositoryTree.ReplaceTarget` | src/patchharbor/payload_files.py:129-137 | Staging, the second look and the swap put the payload's bytes at its target, with the old file's mode, or the requested or default one for a new file; or they change nothing |
| `PayloadTree.RepositoryTree.WritePayloads` | src/patchharbor/payload_files.py:162-185 | Without outside failures: success exactly for validated payloads. On success every target holds its payload's bytes with the old, requested or default mode, and the rest of the tree is as it was; a failure at payload k leaves exactly the first k in place and adds only parents of payloads up to k |
| `PayloadTree.DonePayloadsAreInPlace` | src/patchharbor/payload_files.py:175-184 | Whatever counts as done is in place byte for byte, only regular files below real directories were replaced, and every other old file is as it was |
| `PayloadTree.OverlayIsDetermined` | src/patchharbor/payload_files.py:162-185 | The old tree, the payloads and the modes determine the final tree |
| `PayloadTree.FreeTargetsMayStillCollide` | src/patchharbor/bundle_paths.py:86-134 | Without the path validation two free targets may collide: a concrete pair of payloads |
| `Registration.ExcludeGainsOneLine` | src/patchharbor/repository.py:302-313 | The exclude entry is added once, as a line of its own whatever line ends the file has, and every other line stays |
| `Registration.LinesFromTheFirst` | src/patchharbor/repository.py:302-313 | How the exclude file falls into lines: LF, CR and CRLF end one, and the last needs none |
| `Registration.IdentityFiles.ApplyLocal` | src/patchharbor/repository.py:283-325 | Directory, exclude entry and id are written in this order: a changed id means the entry is there, a changed exclude file means the directory is there, and each file is the old or the new one whatever fails |
| `Registration.IdentityFiles.InitializeConfiguration` | src/patchharbor/configuration.py:318-330 | Defaults are written only where no configuration exists |
| `Registration.IdentityFiles.WriteRegistryFile` | src/patchharbor/registry.py:210-220 | The registry file is replaced as a whole: after a failure it is the old one, or the new one if the failure came after the replacement |
| `Registration.IdentityFiles.RestoreLocal` | src/patchharbor/repository.py:328-357 | Each local file is put back unless its own restore fails, whatever happened to the others; success means the exact earlier files |
| `Registration.IdentityFiles.RestoreRegistryFile` | src/patchharbor/registry.py:223-239 | The exact earlier registry bytes, or their absence, come back |
| `Registration.IdentityFiles.Commit` | src/patchharbor/registration.py:245-287 | All of the new identity state or exactly the old one; anything else only after a failed restore, and reported as such |
| `Registration.StepKeepsTheMapInjective` | src/patchharbor/registry.py:98-122 | Every registration and removal keeps the id/path map injective |
| `Registration.EveryRunKeepsTheMapInjective` | src/patchharbor/registry.py:98-122 | From an empty registry every sequence of actions and outside changes keeps the map injective |
| `Registration.NoExistingPathIsAbandoned` | src/patchharbor/registration.py:102-173 | An id moves to another path only when its old path is gone and the new directory carries that id; an entry disappears only by removal or replacement at its path |
| `Registration.RegistrationIsRefusedExactlyWhen` | src/patchharbor/registration.py:102-227 | Exactly when a registration is accepted: a fresh directory, or one whose id file and configuration are in order, while every other registered repository in place permits the path, and an id is not taken from another existing path |
| `Registration.RegistrationWrites` | src/patchharbor/registration.py:132-287 | What an accepted registration leaves: the selected id as the only one for the path, every other entry as it was, and the directory, exclude entry, id file and configuration of exactly this repository |
| `Registration.RemovalIsRefusedExactlyWhen` | src/patchharbor/registration.py:463-525 | A removal is refused exactly if the id is not registered or its path exists without carrying it; it removes one entry and touches no directory |
| `Registration.SeparationIsKeptExactlyWhen` | src/patchharbor/registration.py:191-227 | Registration keeps all registered repositories apart from all exchange directories exactly if no other one overlaps the exchange directory the registered repository brings along, which is not checked |
| `Registration.ReturningRepositoryLosesSeparation` | src/patchharbor/registration.py:206-227 | A repository that comes back after another was registered inside its exchange directory is accepted, and the separation is lost |
| `Registration.RegistrationAgreesWithTheDirectory` | src/patchharbor/registration.py:265-287 | After a registration exactly one id names the path, and the directory carries it |
| `Registration.RegistrationPreparesOnlyItsDirectory` | src/patchharbor/repository.py:283-325 | A registered directory is excluded and configured, and no other directory changes |
| `LedgerCodec.AcceptedRecordIsStored` | src/patchharbor/exchange_state.py:305-342 | Accepted entries have exactly the fields of their version and satisfy every type and record invariant |
| `LedgerCodec.EntryIsReadExactlyAsStated` | src/patchharbor/exchange_state.py:210-342 | An entry of any version is read as a record if and only if it has exactly the fields of its version and each states that record's field in its literal text, in an absolute path and valid record |
| `LedgerCodec.DocumentIsReadExactlyAsStated` | src/patchharbor/exchange_state.py:345-372 | A document is read as a list of records if and only if it names a version from 1 to 4 and its entries state those records in order, no two of one identity |
| `LedgerCodec.RecordRoundTrip` | src/patchharbor/exchange_state.py:305-427 | Reading an encoded record gives the record back |
| `LedgerCodec.EncodingRoundTrips` | src/patchharbor/exchange_state.py:345-427 | Reading an encoded ledger gives the same records, sorted by the bytes of their paths and then by digest |
| `LedgerCodec.EncodingIsCanonical` | src/patchharbor/exchange_state.py:397-427 | Two ledgers have equal documents if and only if they have the same records |
| `ByteOrder.LessIsLexicographic` | src/patchharbor/exchange_state.py:398-404 | The byte order: a proper prefix comes first, otherwise the first different byte decides |
| `LedgerCodec.AcceptedDocumentsMigrate` | src/patchharbor/exchange_state.py:345-427 | Every accepted document of any version is rewritten in version 4 and read back to the same records |
| `LedgerCodec.OlderEntriesMean` | src/patchharbor/exchange_state.py:305-342 | Version-1 `attempted` means an attempt without outcome; fields an older version lacks are empty |
| `LedgerCodec.CurrentEntriesHaveOneForm` | src/patchharbor/exchange_state.py:305-427 | An accepted version-4 entry with a normal path is the very document the encoder writes |
| `ClassificationCache.OperationsKeepTheCacheSound` | src/patchharbor/exchange_state.py:522-696 | Every ledger operation keeps each cached classification equal to the direct one, and a scan's merge is never refused |
| `ClassificationCache.RunsKeepTheCacheSound` | src/patchharbor/exchange.py:280-361 | So does every sequence of scans and lifecycle operations |
| `ClassificationCache.CachedIdentitiesStayKnown` | src/patchharbor/exchange.py:349-361 | What was cached when a scan began is still known when it merges |
| `ClassificationCache.CollectArtifacts` | src/patchharbor/exchange.py:300-340 | The lookup loop gives every file its direct classification and collects exactly the unknown ones |
| `ClassificationCache.JoinCurrent` | src/patchharbor/exchange.py:349-361 | The final join reports direct classifications with the ledger's current statuses |
| `ClassificationCache.ScanDirectory` | src/patchharbor/exchange.py:280-361 | A cached scan shows each file with its direct classification and the status of its record in the merged ledger, whatever happened to the ledger since the scan began, and adds to the ledger exactly the direct classifications of scanned files not known by then |
| `StagedDiff.CompareStagedEntries` | src/patchharbor/git_capture.py:286-311 | The two-cursor loop computes the walk |
| `StagedDiff.WalkIsExact` | src/patchharbor/git_capture.py:272-311 | On strictly sorted inputs there is a record for exactly the paths where some entry of one side is not in the other, with the base's mode and name on the head side and the index's on the index side |
| `StagedDiff.WalkIsIncreasing` | src/patchharbor/git_capture.py:286-311 | The records are in strict path order |
| `StagedDiff.RecordsTurnBaseIntoIndex` | src/patchharbor/git_capture.py:272-311 | Applying the records to the base gives the index |
| `StagedDiff.NothingStagedIffEqual` | src/patchharbor/git_capture.py:286-311 | No record if and only if base and index are equal |
| `GitObjects.AnswerIsReadExactlyIfPrinted` | src/patchharbor/git_objects.py:119-140 | One answer is accepted at the cursor, with the place of its content, exactly if there stand the header naming that blob with a fitting size, LF, that many bytes, and LF |
| `GitObjects.ParseBatchBlobResponse` | src/patchharbor/git_objects.py:110-154 | The cursor loop computes the recursive parse, errors included |
| `GitObjects.ParserUndoesPrinter` | src/patchharbor/git_objects.py:110-154 | Every printed response is accepted with exactly its contents, whatever bytes they hold and however the sizes are padded |
| `GitObjects.AcceptedResponseIsPrinted` | src/patchharbor/git_objects.py:110-154 | Acceptance means the whole response is one answer per entry, in order, with nothing between or after |
| `GitObjects.DecimalResponsesAreAccepted` | src/patchharbor/git_objects.py:101-154 | Every response with decimal sizes is accepted with its contents, up to the digit limit of number parsing |
| `GitObjects.ParseBaseTree` | src/patchharbor/git_capture.py:186-213 | The state reader's loop computes its specification |
| `GitObjects.ParseBaseTreeEntries` | src/patchharbor/git_objects.py:68-98 | The bundle reader's loop computes its specification |
| `GitObjects.LinesAgree` | src/patchharbor/git_objects.py:75-92 | Both readers accept the same lines with the same fields, although they split them differently |
| `GitObjects.StateTreeIsSorted` | src/patchharbor/git_capture.py:176-213 | An accepted listing is a valid input of the staged comparison |
| `GitObjects.ReadersAgree` | src/patchharbor/git_objects.py:68-98 | Whatever the state reader accepts, the bundle reader returns in the same order, unless the path rule rejects it |
| `GitObjects.StateFollowsBundle` | src/patchharbor/git_capture.py:186-213 | The state reader accepts what the bundle reader accepts in increasing order without an empty path |
| `TreeListings.LineIsReadExactlyIfPrinted` | src/patchharbor/git_capture.py:186-205 | A listing line is read as an entry if and only if it is what Git prints for that regular file, whatever bytes the path has |
| `TreeListings.StateListingIsPrinted` | src/patchharbor/git_capture.py:176-213 | The state reader accepts a listing with these entries if and only if it is what Git prints for them and the paths are nonempty and strictly increasing |
| `TreeListings.BundleListingIsPrinted` | src/patchharbor/git_objects.py:68-98 | The bundle reader accepts a listing if and only if it is what Git prints for files with different paths that the path rule accepts, in any order, and returns those files in increasing order |
| `TreeListings.SortedIsOrdered` | src/patchharbor/git_objects.py:94-98 | Sorting entries with different paths gives the same entries in increasing order |
| `ZipDirectory.WalkHeaders` | src/patchharbor/runtime_zip.py:26-33 | The cursor loop accepts exactly when the bounds are tiled by the stated number of headers |
| `ZipDirectory.BoundedDirectory` | src/patchharbor/runtime_zip.py:10-34 | The strict walk accepts exactly its boundary rules plus a tiling, and returns its count |
| `ZipDirectory.TilingCountIsUnique` | src/patchharbor/runtime_zip.py:10-34 | The same bounds cannot be tiled by two different counts |
| `ZipDirectory.PrintedArchivesAreAccepted` | src/patchharbor/runtime_zip.py:10-34 | Every directory printed from 1 to 1000 names of 1 to 512 bytes is accepted with its true count |
| `ZipDirectory.AcceptedArchivesArePrinted` | src/patchharbor/runtime_zip.py:10-34 | Acceptance means a body, the printed directory of that many entries and its end record, and nothing else |
| `ZipDirectory.DirectoryBudget` | scripts/pyz_bootstrap.py:207-243 | The wide walk, ZIP64 records included, accepts exactly its boundary rules plus a tiling |
| `WideArchives.AcceptedIsAnArchive` | scripts/pyz_bootstrap.py:207-243 | What the wide walk accepts is a body, a printed directory of 1 to the limit entries with names, extra fields and comments, perhaps a ZIP64 record with its locator, and an end record, each stating the others' true places and sizes |
| `WideArchives.WideArchivesAreAccepted` | scripts/pyz_bootstrap.py:207-243 | The converse: every such archive is accepted |
| `ZipDirectory.LastBoundaryOfStrict` | scripts/pyz_bootstrap.py:210-212 | The backward search finds the strict end record exactly if no end signature recurs behind its start; up to 1000 entries it can recur only as the directory offset |
| `ZipDirectory.StrictMeetsWide` | scripts/pyz_bootstrap.py:207-243 | Exactly when the wide walk accepts what the strict walk accepts, for every limit: no recurring end signature, and the count within its limit, or read from a ZIP64 record, which needs the placeholder offset, if bytes before the end record spell its locator |
| `TerminalFilter.ChildTextFilter.Feed` | src/patchharbor/presentation.py:224-261 | Feeding a chunk shows and leaves what the transition function says |
| `TerminalFilter.FeedingIsChunkIndependent` | src/patchharbor/presentation.py:218-261 | Feeding a then b is feeding a+b |
| `TerminalFilter.EveryChunkingShowsTheSame` | src/patchharbor/presentation.py:218-261 | Every chunking of a text shows the same |
| `TerminalFilter.CharacterIsShownAs` | src/patchharbor/presentation.py:171-261 | What stands for one character outside every command, in the stream and in the batch form |
| `TerminalFilter.CsiSequenceIsRemoved` | src/patchharbor/presentation.py:131-138 | ESC and `[`, or in the stream its C1 code, hides exactly what reaches to the first final byte |
| `TerminalFilter.ControlStringIsRemoved` | src/patchharbor/presentation.py:100-142 | ESC and one of `] P X ^ _`, or in the stream its C1 code, hides exactly what reaches to BEL, ESC backslash, or in the stream ST |
| `TerminalFilter.OtherEscapesAreTwoCharacters` | src/patchharbor/presentation.py:115-249 | Any other ESC sequence is two characters; in a control string ESC and anything but a backslash belong to it |
| `TerminalFilter.OnlyHarmlessTextIsShown` | src/patchharbor/presentation.py:218-261 | Only line ends, tab spaces and characters outside the hidden categories are shown |
| `TerminalFilter.SkipControlString` | src/patchharbor/presentation.py:100-112 | The skip loop finds the end of a control string |
| `TerminalFilter.StripTerminalSequences` | src/patchharbor/presentation.py:115-143 | The index loop removes exactly the escape sequences |
| `TerminalFilter.SanitizeVisibleText` | src/patchharbor/presentation.py:171-187 | The batch form: strip, then map characters |
| `TerminalFilter.OrdinaryTextIsUndisputed` | src/patchharbor/presentation.py:100-143 | Text without C1 controls and without ESC before ESC or BEL meets the condition of the comparison |
| `TerminalFilter.StreamEqualsBatch` | src/patchharbor/presentation.py:100-261 | On undisputed text the stream shows what the batch form shows if and only if it meets no carriage return as text; each one it meets is one line end more |
| `TerminalFilter.OrdinaryTextDiffersByItsReturns` | src/patchharbor/presentation.py:100-261 | The same if-and-only-if for every text without C1 controls and without ESC before ESC or BEL |
| `TerminalFilter.CarriageReturnDiffers` | src/patchharbor/presentation.py:182-183 | The shortest disagreement: a carriage return ends a line in the stream and disappears from the batch form |
| `TerminalFilter.C1IntroducerDiffers` | src/patchharbor/presentation.py:250-253 | A C1 introducer hides what follows in the stream only |
| `TerminalFilter.StringTerminatorDiffers` | src/patchharbor/presentation.py:241-243 | ST ends a control string in the stream only |
| `TerminalFilter.DoubleEscapeDiffers` | src/patchharbor/presentation.py:246-248 | ESC before BEL, or before ESC and backslash, ends a control string in the batch form only |
| `OutputCapture.RollingLineBuffer.Append` | src/patchharbor/output.py:65-70 | The buffer always holds the newest ten lines and counts the others |
| `OutputCapture.SnapshotShowsTheEnd` | src/patchharbor/output.py:72-85 | The observer is shown the last five lines and the number of lines before the last ten |
| `OutputCapture.Sink.Write` | src/patchharbor/output.py:115-124 | A destination gets what it took of a write, and is dropped at its first failing one |
| `OutputCapture.ReceivedIsAPrefix` | src/patchharbor/output.py:217-239 | What a destination has received is a prefix of the stream, the whole stream as long as no write failed, and with the first failing write what it took of that piece and nothing after it |
| `OutputCapture.TakeCompleteLines` | src/patchharbor/output.py:261-266 | Complete lines can be taken before the rest of the output is known |
| `OutputCapture.Drain` | src/patchharbor/output.py:217-271 | For every chunking the buffer receives the lines of the whole text; the raw copy, the live view and the line observer each get their stream up to their own first failure, the observer one view of the newest five lines per line |
| `OutputCapture.Capture` | src/patchharbor/output.py:57-85 | The capture ends with the last min(10, n) lines, shows the last five, and counts the rest |
| `OutputCapture.LinesMakeTheText` | src/patchharbor/output.py:261-271 | The lines joined are the text, and each ends at its first newline except possibly the last |
| `ResultBundle.NamesAreDistinctTexts` | src/patchharbor/result_bundle_writer.py:71-115 | Different kinds of members never share a path |
| `ResultBundle.WriteResultBundle` | src/patchharbor/result_bundle_writer.py:44-115 | The members written, in order, and the two refusals |
| `ResultBundle.MembersAreWritten` | src/patchharbor/result_bundle_writer.py:71-115 | Which members an archive has: every document, patch and file under its own name with its own content and mode, and nothing else |
| `ResultBundle.CheckInventory` | src/patchharbor/result_reader.py:357-388 | One inventory half: every fact against its member, its mode only where the archive states one, no member twice |
| `RepositoryPaths.ValidateRepositoryPaths` | src/patchharbor/repository_paths.py:80-95 | Paths are accepted exactly if all are portable and no two different ones fold to the same text |
| `RepositoryPaths.PortableSegmentMeans` | src/patchharbor/repository_paths.py:20-78 | A portable segment: no empty or relative name, no control or reserved character, no trailing dot or space, caselessly neither an internal directory nor a device name with or without an extension |
| `RepositoryPaths.ResultPathMeans` | src/patchharbor/result_reader.py:161-176 | Below `base/` and `untracked/` a Result path needs a portable rest; any other is short and made of safe segments outside the internal directories |
| `ResultBundle.ParseResultPayloads` | src/patchharbor/result_reader.py:253-390 | The member accounting accepts exactly budget, runtime, inventories, portable paths and the exact member set |
| `ResultBundle.AccountingMeans` | src/patchharbor/result_reader.py:253-390 | The accounting in terms of the members themselves: names, sizes, digests and modes of both inventories and the runtime, the byte budget, and the exact member set |
| `ResultBundle.AcceptedContentIsDetermined` | src/patchharbor/result_reader.py:333-390 | With collision-free digests a manifest determines what it accounts for: two accepted archives have the same members, and the same bytes and modes in every repository and runtime file |
| `ResultBundle.EachWarningOnce` | src/patchharbor/result_bundle.py:246-246 | The completed report has each warning once, in the order of first occurrences, none lost and none invented |
| `ResultBundle.WrittenNamesAreDistinct` | src/patchharbor/result_bundle_writer.py:71-115 | For every valid snapshot, runtime and execution state the members are pairwise different |
| `ResultBundle.WrittenNamesAreRequired` | src/patchharbor/result_reader.py:333-390 | The members written are exactly the set the reader requires |
| `ResultBundle.BudgetsAgree` | src/patchharbor/result_resources.py:130-147 | The producer's list has the entry count, entry sizes and byte sum of what is written, though in another order |
| `ResultBundle.AccountingMatchesTheBudget` | src/patchharbor/result_reader.py:253-390 | The accounting of what the writer wrote succeeds if and only if the producer's budget test passes, inner archive bytes included |
| `ResultBundle.EntryLimitIsTight` | src/patchharbor/resource_policy.py:9-40 | The file limit alone keeps the default entry limit, and reaches it exactly |
| `MemberTrees.ApartListsJoin` | src/patchharbor/bundle_paths.py:86-134 | Two member lists whose first segments never fold alike are one tree exactly if each of them is |
| `MemberTrees.CommonRootIsNeutral` | src/patchharbor/bundle_paths.py:86-134 | Putting a list below one more directory changes nothing about its being a tree |
| `ResultReader.ReadArchive` | src/patchharbor/zip_payloads.py:206-234 | The archive stage accepts exactly if the outer budget holds, every member name is allowed, and all members together are one tree on every file system |
| `ResultReader.WrittenNamesAreAllowed` | src/patchharbor/result_reader.py:161-176 | Every name the writer uses follows the path rule of Results, if and only if the start archive's name is not too long |
| `ResultReader.WrittenTreeIsAcceptable` | src/patchharbor/result_bundle_writer.py:71-115 | All members the writer writes are one tree if and only if the committed files are one and the untracked files are one |
| `ResultReader.ReaderAcceptsTheWriter` | src/patchharbor/result_reader.py:422-446 | For every captured snapshot the reader, archive stage included, accepts what the writer wrote if and only if the producer's budget test passes, committed and untracked files are each one tree, and the start archive's name is not too long |
| `ResultReader.PublishedResultsAreReadable` | src/patchharbor/result_bundle.py:236-259 | The runtime is embedded exactly if everything fits with it, and the Result chosen passes the reader if and only if the same condition on the snapshot holds and, without an embedded runtime, the rest fits |
| `ResultReader.OnlyDirectoriesDecide` | src/patchharbor/result_bundle_snapshot.py:143-143 | For captured files the tree condition is about directories alone: none folds like another directory, or like a file |
| `ResultReader.CollidingDirectoriesAreRefused` | src/patchharbor/result_bundle_snapshot.py:143-143 | Two snapshots the capture takes and the writer writes, `Foo/a` with `foo/b` and `Foo` with `foo/bar`, are refused by every reader whatever their contents |

## Left out

- Git subprocesses, descriptors, durability calls, Windows specifics and lock waiting: they are outcomes at step boundaries.
- Races inside one check-then-act pair, which the code disclaims as well.
- ZIP compression and CRC, JSON text, UTF-8 decoding, regular expressions and hash functions: documents, contents and
  digests are abstract.
- `parse_script`, candidate tie-breaking, discovery scopes and watch control: one-branch or finite decisions that would add
  only easy members.
- The selector parsing of registration and the text of a configuration: the parser and the overlap test are parameters.
- Results without a completion receipt and diagnostic Results enter the protocol as files users put; `ExchangeProtocol`
  tracks only Results of runs that reach the capture step.
- Result document schemas beyond member accounting (timestamps, status combinations, handoff metadata, dirty flag) and the
  content checks inside the start archive, which appear as one inner byte count.
- PayloadTree.RepositoryTree.WritePayloads: outside interference between two requests is not modelled; the second look
  before the swap is kept, and failures of the operating system are arbitrary per request.
- Registration.IdentityFiles.Commit: one file request may fail before or after its effect; a crash of the process inside
  the rollback itself appears only as an outside change in the runs over many repositories.
- OutputCapture.Drain: the first remembered error message and the reader thread are not modelled.
- ResultBundle.ParseResultPayloads: document schemas are not part of acceptance.
- ResultReader.ReadArchive: the limit on the compressed artifact, and explicit directory entries, which the writer never
  writes, are not modelled; neither is the further grammar of a version text.
- ResultReader.ReaderAcceptsTheWriter: for the same reason it does not speak of document schemas and the compressed limit.
- ResultReader.PublishedResultsAreReadable: likewise.
- ExchangeMaintenance.ArchiveArtifacts: exceptions that end a pass early are one stop position; destinations are identities.
- ExchangeTheorems.EveryScheduleIsSafe: the control flow of one Apply run is given as the guards of its steps, not as one
  imperative procedure, because other agents act between any two of them.
- CLI, console rendering, chat instructions, interpreter lookup, process control, build and release scripts.
