/** Safety of the Exchange protocol over every schedule, and what a step may rely on. */
module ExchangeTheorems {
  import opened Prelude
  import opened Bindings
  import opened CommitGraph
  import opened ArchiveGit
  import opened ExchangeLedger
  import opened ExchangeProtocol
  import opened ExchangeInvariant
  import opened ExchangeSteps

  // ---------------------------------------------------------------- every step, every schedule

  lemma StepKeepsCore(s: State, a: AgentId, step: Step)
    requires Inv(s) && Next(s, a, step).Some?
    ensures Core(Next(s, a, step).value)
  {
    hide BeginApply, LockForApply, RecordAttempt, EnterWrites, EndEntrypoint, PinResult, PublishResult, RecordOutcome;
    hide Stop;
    hide BeginPass, ScanFile, MergeScan, LoadPending, LockForPass, UnlockPass, RecoverAttempt, ArchiveMove, UserRemove;
    hide Core, CaptureResult, UserPut, RepositoryChange;
    match step
    case ABegin(id, selection, mode) => BeginKeeps(s, a, id, selection, mode);
    case ALock => LockKeeps(s, a);
    case ARecord => AttemptKeeps(s, a);
    case AWrite => WriteKeeps(s, a);
    case AExit(exitZero) => ExitKeeps(s, a, exitZero);
    case ACapture(sha, warned) => CaptureKeeps(s, a, sha, warned);
    case APin => PinKeeps(s, a);
    case APublish(path) => PublishKeeps(s, a, path);
    case AOutcome => OutcomeKeeps(s, a);
    case AStop => StopKeeps(s, a);
    case PBegin(agent) => BeginPassKeeps(s, a, agent);
    case PScan(path) => ScanKeeps(s, a, path);
    case PMerge(candidates) => MergeKeeps(s, candidates);
    case PLoad => LoadKeeps(s, a);
    case PLock => PassLockKeeps(s, a);
    case PUnlock => PassUnlockKeeps(s, a);
    case PRecover(r, result) => RecoverKeeps(s, a, r, result);
    case PArchive(id) => MoveKeeps(s, a, id);
    case UPut(path, sha, content) => PutKeeps(s, a, path, sha, content);
    case URemove(path) => RemoveKeeps(s, path);
    case URepository(repoId, git, context) => RepositoryChangeKeeps(s, repoId, git, context);
  }

  /** Every step that writes the ledger is one ledger operation. */
  ghost function LedgerOp(s: State, a: AgentId, step: Step): Option<Op> {
    match step
    case ARecord => if RunOf(s, a).Some? then Some(StartOp(RunOf(s, a).value, a)) else None
    case APin =>
      var run := RunOf(s, a);
      if run.Some? && run.value.capture.Some? then
        Some(Pin(run.value.identity, run.value.selection, a, run.value.capture.value.sha)) else None
    case AOutcome =>
      var run := RunOf(s, a);
      if run.Some? && run.value.before.Some? && run.value.selection.repoId in s.repos
         && ValidGit(s.repos[run.value.selection.repoId].git) then Some(OutcomeOp(s, run.value, a)) else None
    case PMerge(candidates) => Some(Merge(candidates))
    case PRecover(r, result) =>
      if result.sha256 in s.meaning && s.meaning[result.sha256].Proves?
        && s.meaning[result.sha256].evidence.receipt.Some?
      then Some(Recover(r, s.meaning[result.sha256].evidence.receipt.value.completedCommit)) else None
    case _ => None
  }

  /** The ledger a step may leave behind: unchanged, or what one ledger operation makes of it. */
  ghost predicate LedgerFollows(ledger: seq<Record>, next: Option<State>, op: Option<Op>) {
    next.Some? ==>
      && next.value.ledger == (if op.Some? then After(ledger, op.value) else ledger)
      && (op.Some? ==> OpArgumentsValid(op.value))
  }

  lemma StartIsAnOperation(s: State, a: AgentId)
    ensures LedgerFollows(s.ledger, RecordAttempt(s, a), LedgerOp(s, a, ARecord))
  {
  }

  lemma PinIsAnOperation(s: State, a: AgentId)
    ensures LedgerFollows(s.ledger, PinResult(s, a), LedgerOp(s, a, APin))
  {
  }

  lemma OutcomeIsAnOperation(s: State, a: AgentId)
    ensures LedgerFollows(s.ledger, RecordOutcome(s, a), LedgerOp(s, a, AOutcome))
  {
  }

  lemma MergeIsAnOperation(s: State, a: AgentId, candidates: seq<Record>)
    ensures LedgerFollows(s.ledger, MergeScan(s, candidates), LedgerOp(s, a, PMerge(candidates)))
  {
  }

  lemma ProofHasReceipt(s: State, agent: Agent, r: Record, result: Identity)
    requires RecoveryProof(s, agent, r, result)
    ensures result.sha256 in s.meaning && s.meaning[result.sha256].Proves?
            && s.meaning[result.sha256].evidence.receipt.Some?
  {
    hide ProvenResultState, Ancestor;
  }

  lemma SwapWrites(s: State, a: AgentId, r: Record, result: Identity, t: State)
    requires RecoverAttempt(s, a, r, result) == Some(t)
    ensures result.sha256 in s.meaning && s.meaning[result.sha256].Proves?
            && s.meaning[result.sha256].evidence.receipt.Some?
    ensures t.ledger == After(s.ledger, Recover(r, s.meaning[result.sha256].evidence.receipt.value.completedCommit))
  {
    ProofHasReceipt(s, s.agents[a], r, result);
    hide RecoveryProof, Apply;
  }

  lemma SwapIsAnOperation(s: State, a: AgentId, r: Record, result: Identity)
    ensures LedgerFollows(s.ledger, RecoverAttempt(s, a, r, result), LedgerOp(s, a, PRecover(r, result)))
  {
    hide RecoverAttempt, After;
    var next := RecoverAttempt(s, a, r, result);
    if next.Some? { SwapWrites(s, a, r, result, next.value); }
  }

  lemma RunStepsLeaveTheLedger(s: State, a: AgentId, step: Step)
    requires step.ABegin? || step.ALock? || step.AWrite? || step.AExit? || step.ACapture? || step.APublish?
               || step.AStop?
    ensures LedgerFollows(s.ledger, Next(s, a, step), None)
  {
    hide Completion, ResultContent, MatchesContext, HeldRepo;
  }

  lemma ScanStepsLeaveTheLedger(s: State, a: AgentId, step: Step)
    requires step.PBegin? || step.PScan? || step.PLoad?
    ensures LedgerFollows(s.ledger, Next(s, a, step), None)
  {
    hide IsPinnedAttempt;
  }

  lemma PassStepsLeaveTheLedger(s: State, a: AgentId, step: Step)
    requires step.PLock? || step.PUnlock? || step.PArchive?
    ensures LedgerFollows(s.ledger, Next(s, a, step), None)
  {
    hide ArchiveProof;
  }

  lemma OutsideStepsLeaveTheLedger(s: State, a: AgentId, step: Step)
    requires step.UPut? || step.URemove? || step.URepository?
    ensures LedgerFollows(s.ledger, Next(s, a, step), None)
  {
    hide IsPrivate, ValidGit;
  }

  /** The protocol changes the ledger only through the ledger's own operations. */
  lemma LedgerChangesAreOperations(s: State, a: AgentId, step: Step)
    requires Next(s, a, step).Some?
    ensures Next(s, a, step).value.ledger ==
            if LedgerOp(s, a, step).Some? then After(s.ledger, LedgerOp(s, a, step).value) else s.ledger
    ensures LedgerOp(s, a, step).Some? ==> OpArgumentsValid(LedgerOp(s, a, step).value)
  {
    hide BeginApply, LockForApply, RecordAttempt, EnterWrites, EndEntrypoint, PinResult, PublishResult, RecordOutcome;
    hide Stop;
    hide BeginPass, ScanFile, MergeScan, LoadPending, LockForPass, UnlockPass, RecoverAttempt, ArchiveMove, UserRemove;
    hide CaptureResult, UserPut, RepositoryChange, OpArgumentsValid, After, StartOp, OutcomeOp, ValidGit;
    match step
    case ARecord => StartIsAnOperation(s, a);
    case APin => PinIsAnOperation(s, a);
    case AOutcome => OutcomeIsAnOperation(s, a);
    case PMerge(candidates) => MergeIsAnOperation(s, a, candidates);
    case PRecover(r, result) => SwapIsAnOperation(s, a, r, result);
    case PBegin(_) => ScanStepsLeaveTheLedger(s, a, step);
    case PScan(_) => ScanStepsLeaveTheLedger(s, a, step);
    case PLoad => ScanStepsLeaveTheLedger(s, a, step);
    case PLock => PassStepsLeaveTheLedger(s, a, step);
    case PUnlock => PassStepsLeaveTheLedger(s, a, step);
    case PArchive(_) => PassStepsLeaveTheLedger(s, a, step);
    case UPut(_, _, _) => OutsideStepsLeaveTheLedger(s, a, step);
    case URemove(_) => OutsideStepsLeaveTheLedger(s, a, step);
    case URepository(_, _, _) => OutsideStepsLeaveTheLedger(s, a, step);
    case _ => RunStepsLeaveTheLedger(s, a, step);
  }

  ghost predicate SameRepositories(repos: map<string, Repository>, later: map<string, Repository>) {
    forall q | q in later :: q in repos && later[q].git == repos[q].git && later[q].context == repos[q].context
  }

  /** No digest gets a meaning or a capture, and no repository changes in more than its lock. */
  ghost predicate OnlyLocks(s: State, next: Option<State>) {
    next.Some? ==>
      next.value.meaning == s.meaning && next.value.captures == s.captures
        && SameRepositories(s.repos, next.value.repos)
  }

  lemma BeginFrame(s: State, a: AgentId, id: Identity, selection: Selection, mode: Mode)
    ensures OnlyLocks(s, BeginApply(s, a, id, selection, mode))
  {
  }

  lemma ApplyLockFrame(s: State, a: AgentId)
    ensures OnlyLocks(s, LockForApply(s, a))
  {
  }

  lemma RecordAttemptFrame(s: State, a: AgentId)
    ensures OnlyLocks(s, RecordAttempt(s, a))
  {
    hide Apply, MatchesContext, Present;
  }

  lemma EntrypointFrame(s: State, a: AgentId, exitZero: bool)
    ensures OnlyLocks(s, EnterWrites(s, a)) && OnlyLocks(s, EndEntrypoint(s, a, exitZero))
  {
  }

  lemma PinStepFrame(s: State, a: AgentId)
    ensures OnlyLocks(s, PinResult(s, a))
  {
    hide Apply;
  }

  lemma PublishFrame(s: State, a: AgentId, path: string)
    ensures OnlyLocks(s, PublishResult(s, a, path))
  {
  }

  lemma OutcomeFrame(s: State, a: AgentId)
    ensures OnlyLocks(s, RecordOutcome(s, a))
  {
    hide Apply, OutcomeOp, ValidGit;
  }

  lemma StopFrame(s: State, a: AgentId)
    ensures OnlyLocks(s, Stop(s, a))
  {
    hide HeldRepo;
  }

  lemma BeginPassFrame(s: State, a: AgentId, agent: Agent)
    ensures OnlyLocks(s, BeginPass(s, a, agent))
  {
  }

  lemma LoadFrame(s: State, a: AgentId)
    ensures OnlyLocks(s, LoadPending(s, a))
  {
    hide IsPinnedAttempt;
  }

  lemma ScanFrame(s: State, a: AgentId, path: string)
    ensures OnlyLocks(s, ScanFile(s, a, path)) && OnlyLocks(s, UserRemove(s, path))
  {
  }

  lemma MergeFrame(s: State, candidates: seq<Record>)
    ensures OnlyLocks(s, MergeScan(s, candidates))
  {
    hide Apply, FreshClassification;
  }

  lemma PassLockFrame(s: State, a: AgentId)
    ensures OnlyLocks(s, LockForPass(s, a))
  {
  }

  lemma PassUnlockFrame(s: State, a: AgentId)
    ensures OnlyLocks(s, UnlockPass(s, a))
  {
  }

  lemma PassEffectFrame(s: State, a: AgentId, r: Record, result: Identity)
    ensures OnlyLocks(s, RecoverAttempt(s, a, r, result)) && OnlyLocks(s, ArchiveMove(s, a, result))
  {
    hide Apply, ArchiveProof, RecoveryProof;
  }

  predicate AddsMeaning(step: Step) { step.ACapture? || step.UPut? }

  /** Tool steps only take and release locks; the outside changes repositories, captures and new files add digests. */
  lemma StepFrame(s: State, a: AgentId, step: Step)
    requires !AddsMeaning(step) && !step.URepository?
    ensures OnlyLocks(s, Next(s, a, step))
  {
    hide BeginApply, LockForApply, RecordAttempt, EnterWrites, EndEntrypoint, PinResult, PublishResult, RecordOutcome;
    hide Stop;
    hide BeginPass, ScanFile, MergeScan, LoadPending, LockForPass, UnlockPass, RecoverAttempt, ArchiveMove, UserRemove;
    hide OnlyLocks;
    match step
    case ABegin(id, selection, mode) => BeginFrame(s, a, id, selection, mode);
    case ALock => ApplyLockFrame(s, a);
    case ARecord => RecordAttemptFrame(s, a);
    case AWrite => EntrypointFrame(s, a, false);
    case AExit(exitZero) => EntrypointFrame(s, a, exitZero);
    case APin => PinStepFrame(s, a);
    case APublish(path) => PublishFrame(s, a, path);
    case AOutcome => OutcomeFrame(s, a);
    case AStop => StopFrame(s, a);
    case PBegin(agent) => BeginPassFrame(s, a, agent);
    case PScan(path) => ScanFrame(s, a, path);
    case PMerge(candidates) => MergeFrame(s, candidates);
    case PLoad => LoadFrame(s, a);
    case PLock => PassLockFrame(s, a);
    case PUnlock => PassUnlockFrame(s, a);
    case PRecover(r, result) => PassEffectFrame(s, a, r, result);
    case PArchive(id) => PassEffectFrame(s, a, Record(id, Other, None, None, None, None, None), id);
    case URemove(path) => ScanFrame(s, a, path);
  }

  lemma AddingStepsKeepRepositories(s: State, a: AgentId, path: string, sha: string, content: Content, warned: bool)
    ensures CaptureResult(s, a, sha, warned).Some? ==> CaptureResult(s, a, sha, warned).value.repos == s.repos
    ensures UserPut(s, path, sha, content).Some? ==> UserPut(s, path, sha, content).value.repos == s.repos
  {
  }

  lemma RepositoryChangeIsValid(s: State, repoId: string, git: Git, context: Context)
    requires ReposValid(s.repos) && RepositoryChange(s, repoId, git, context).Some?
    ensures var t := RepositoryChange(s, repoId, git, context).value;
            ReposValid(t.repos) && t.meaning == s.meaning && t.captures == s.captures
  {
  }

  lemma StepKeepsRepositories(s: State, a: AgentId, step: Step)
    requires ReposValid(s.repos) && Next(s, a, step).Some?
    ensures ReposValid(Next(s, a, step).value.repos)
  {
    hide BeginApply, LockForApply, RecordAttempt, EnterWrites, EndEntrypoint, PinResult, PublishResult, RecordOutcome;
    hide Stop;
    hide BeginPass, ScanFile, MergeScan, LoadPending, LockForPass, UnlockPass, RecoverAttempt, ArchiveMove, UserRemove;
    hide CaptureResult, UserPut, RepositoryChange;
    match step
    case ACapture(sha, warned) => AddingStepsKeepRepositories(s, a, "", sha, Unusable, warned);
    case UPut(path, sha, content) => AddingStepsKeepRepositories(s, a, path, sha, content, false);
    case URepository(repoId, git, context) => RepositoryChangeIsValid(s, repoId, git, context);
    case _ => StepFrame(s, a, step);
  }

  ghost predicate MeaningExtends(meaning: map<string, Content>, later: map<string, Content>) {
    forall sha | sha in meaning :: sha in later && later[sha] == meaning[sha]
  }

  /** Facts survive when digests are added, and a new fact may join them. */
  lemma FactsGrow(meaning: map<string, Content>, captures: map<string, CaptureFact>,
                  later: map<string, Content>, captures': map<string, CaptureFact>)
    requires FactsInv(meaning, captures) && MeaningExtends(meaning, later) && captures'.Keys <= later.Keys
    requires forall sha | sha in captures' :: (sha in captures && captures'[sha] == captures[sha])
                                              || (captures'[sha].capture.sha == sha && FactHolds(later, captures'[sha]))
    ensures FactsInv(later, captures')
  {
    forall sha | sha in captures' ensures captures'[sha].capture.sha == sha && FactHolds(later, captures'[sha]) {
      if sha in captures && captures'[sha] == captures[sha] { FactSurvives(meaning, later, captures[sha]); }
    }
  }

  lemma FactSurvives(meaning: map<string, Content>, later: map<string, Content>, fact: CaptureFact)
    requires FactHolds(meaning, fact) && MeaningExtends(meaning, later)
    ensures FactHolds(later, fact)
  {
  }

  lemma PutAddsMeaning(s: State, path: string, sha: string, content: Content)
    requires UserPut(s, path, sha, content).Some?
    ensures var t := UserPut(s, path, sha, content).value;
              MeaningExtends(s.meaning, t.meaning) && t.captures == s.captures
  {
  }

  /** What a capture adds: the meaning of one digest and the fact behind it. */
  lemma CaptureEffect(s: State, t: State, a: AgentId, sha: string, warned: bool)
    requires CaptureResult(s, a, sha, warned) == Some(t)
    ensures RunOf(s, a).Some? && RunOf(s, a).value.before.Some? && RunOf(s, a).value.selection.repoId in s.repos
    ensures ValidGit(s.repos[RunOf(s, a).value.selection.repoId].git) && sha !in s.meaning && IsSha256(sha)
    ensures RunOf(s, a).value.stage == Exited
    ensures var run := RunOf(s, a).value;
            var repo, completed := s.repos[run.selection.repoId], Completion(s, run);
            && t.meaning == s.meaning[sha := ResultContent(run, a, repo.git, repo.context, completed, warned)]
            && t.captures == s.captures[sha := CaptureFact(a, run.identity, run.selection, run.before.value,
                                                          Capture(sha, repo.git, repo.context, completed))]
  {
    hide Completion, ResultContent;
  }

  lemma CaptureIsTheStep(s: State, a: AgentId, step: Step)
    requires step.ACapture?
    ensures Next(s, a, step) == CaptureResult(s, a, step.sha, step.warned)
  {
    hide CaptureResult;
  }

  lemma NewFactHolds(s: State, a: AgentId, sha: string, warned: bool, run: ApplyRun, repo: Repository)
    requires run.before.Some? && run.selection.repoId in s.repos && repo == s.repos[run.selection.repoId]
             && ValidGit(repo.git)
    requires IsSha256(sha) && MatchesContext(run.selection, run.before.value)
    ensures var completed := Completion(s, run);
            FactHolds(map[sha := ResultContent(run, a, repo.git, repo.context, completed, warned)],
                      CaptureFact(a, run.identity, run.selection, run.before.value,
                          Capture(sha, repo.git, repo.context, completed)))
  {
    var completed := Completion(s, run);
    if completed.Some? {
      CompletionIsACleanStrictDescendant(repo.git, run.before.value, repo.context, completed.value);
    }
  }

  lemma CaptureKeepsFacts(s: State, a: AgentId, sha: string, warned: bool)
    requires Inv(s) && CaptureResult(s, a, sha, warned).Some?
    ensures var t := CaptureResult(s, a, sha, warned).value; FactsInv(t.meaning, t.captures)
  {
    var t := CaptureResult(s, a, sha, warned).value;
    CaptureEffect(s, t, a, sha, warned);
    var run := RunOf(s, a).value;
    assert RunInv(s, a, run);
    NewFactHolds(s, a, sha, warned, run, s.repos[run.selection.repoId]);
    hide CaptureResult, Completion, ResultContent, Core, RunInv, MatchesContext, ValidGit;
    FactSurvives(map[sha := t.meaning[sha]], t.meaning, t.captures[sha]);
    FactsGrow(s.meaning, s.captures, t.meaning, t.captures);
  }

  /** Digests get a meaning when a run captures a Result or a user drops a file; what they prove never changes. */
  lemma StepKeepsFacts(s: State, a: AgentId, step: Step)
    requires Inv(s) && Next(s, a, step).Some?
    ensures FactsInv(Next(s, a, step).value.meaning, Next(s, a, step).value.captures)
  {
    hide BeginApply, LockForApply, RecordAttempt, EnterWrites, EndEntrypoint, PinResult, PublishResult, RecordOutcome;
    hide Stop;
    hide BeginPass, ScanFile, MergeScan, LoadPending, LockForPass, UnlockPass, RecoverAttempt, ArchiveMove, UserRemove;
    hide Core, FactHolds, CaptureResult, RepositoryChange;
    match step
    case ACapture(sha, warned) => CaptureKeepsFacts(s, a, sha, warned);
    case UPut(path, sha, content) =>
      PutAddsMeaning(s, path, sha, content);
      FactsGrow(s.meaning, s.captures, UserPut(s, path, sha, content).value.meaning, s.captures);
    case URepository(repoId, git, context) => RepositoryChangeIsValid(s, repoId, git, context);
    case _ => StepFrame(s, a, step);
  }

  lemma StepKeepsInv(s: State, a: AgentId, step: Step)
    requires Inv(s) && Next(s, a, step).Some?
    ensures Inv(Next(s, a, step).value)
  {
    StepKeepsCore(s, a, step);
    StepKeepsFacts(s, a, step);
    StepKeepsRepositories(s, a, step);
    LedgerChangesAreOperations(s, a, step);
    if LedgerOp(s, a, step).Some? { EveryOperationKeepsTheLedger(s.ledger, LedgerOp(s, a, step).value); }
  }

  /** Every state of every schedule, crashes included, satisfies the invariant. */
  lemma {:induction false} EveryScheduleIsSafe(s: State, schedule: seq<Event>)
    requires Inv(s) && Execute(s, schedule).Some?
    ensures Inv(Execute(s, schedule).value)
    decreases |schedule|
  {
    if schedule != [] {
      StepKeepsInv(s, schedule[0].agent, schedule[0].step);
      EveryScheduleIsSafe(Next(s, schedule[0].agent, schedule[0].step).value, schedule[1..]);
    }
  }

  /** The states some schedule of runs, crashes, passes and outside changes can produce. */
  ghost predicate Reachable(s: State) {
    exists start, schedule :: Init(start) && Execute(start, schedule) == Some(s)
  }

  lemma ReachableStatesAreSafe(s: State)
    requires Reachable(s)
    ensures Inv(s)
  {
    var start, schedule :| Init(start) && Execute(start, schedule) == Some(s);
    InitHolds(start);
    EveryScheduleIsSafe(start, schedule);
  }

  // ---------------------------------------------------------------- recovery

  /** Behind every pinned digest: a run that exited zero, and its clean HEAD strictly after the patch base. */
  ghost predicate HonestPin(s: State, r: Record) {
    && r.runId.Some? && r.runId.value in s.exitedZero && r.runId.value in s.pins
    && var fact := s.pins[r.runId.value];
      && fact.runId == r.runId.value && fact.identity == r.identity && Some(fact.selection) == r.manifest
      && Some(fact.capture.sha) == r.resultSha && fact.capture.completed == Some(fact.capture.head.baseCommit)
      && !fact.capture.head.dirty && fact.capture.head.baseCommit != fact.selection.baseCommit
      && ValidGit(fact.capture.git)
      && Reaches(fact.capture.git.history, fact.capture.head.baseCommit, fact.selection.baseCommit)
  }

  lemma PinnedDigestsAreHonest(s: State, r: Record)
    requires Inv(s) && RecordFor(s.ledger, r.identity) == Some(r) && r.resultSha.Some?
    ensures HonestPin(s, r)
  {
    assert RecordBacked(s, RecordFor(s.ledger, r.identity).value);
    var fact := s.pins[r.runId.value];
    assert s.captures[fact.capture.sha] == fact && FactHolds(s.meaning, fact);
    CompletionIsACleanStrictDescendant(fact.capture.git, fact.before, fact.capture.head, fact.capture.completed.value);
  }

  /** While a pass holds the lock of the record's repository, the run the record names is not at work. */
  lemma LockMeansNoLiveRun(s: State, a: AgentId, r: Record)
    requires Inv(s) && RecordFor(s.ledger, r.identity) == Some(r) && r.resultSha.Some? && r.manifest.Some?
    requires a in s.agents && s.agents[a].Recovering? && HeldRepo(s.agents[a]) == Some(r.manifest.value.repoId)
    ensures forall b | b in s.agents && s.agents[b].Applying? :: HeldRepo(s.agents[b]) != Some(r.manifest.value.repoId)
    ensures r.runId.Some? && r.runId.value in s.agents && s.agents[r.runId.value].Applying? ==>
              !InAttempt(s.agents[r.runId.value].run.stage)
  {
    forall b | b in s.agents && s.agents[b].Applying? ensures HeldRepo(s.agents[b]) != Some(r.manifest.value.repoId) {
      if HeldRepo(s.agents[b]) == Some(r.manifest.value.repoId) { OneHolder(s, a, b); }
    }
    PinnerHoldsTheLock(s, r);
  }

  /** The run a pinned record names, if it is still inside its attempt, holds the lock of the record's repository. */
  lemma PinnerHoldsTheLock(s: State, r: Record)
    requires PinsInv(s) && RecordsBacked(s) && RunsInv(s) && RecordFor(s.ledger, r.identity) == Some(r)
    requires r.resultSha.Some? && r.manifest.Some?
    ensures r.runId.Some? && r.runId.value in s.agents && s.agents[r.runId.value].Applying?
            && InAttempt(s.agents[r.runId.value].run.stage) ==>
              HeldRepo(s.agents[r.runId.value]) == Some(r.manifest.value.repoId)
  {
    assert RecordBacked(s, RecordFor(s.ledger, r.identity).value);
    if r.runId.Some? && r.runId.value in s.agents && s.agents[r.runId.value].Applying? {
      assert RunInv(s, r.runId.value, s.agents[r.runId.value].run);
    }
  }

  /**
   Recovery marks an attempt succeeded only for a run that exited zero and pinned exactly the bytes now
   published, while the package lies there unchanged. The completion commit is that run's clean HEAD, strictly
   after the patch base, then and now; the locked repository is clean, in original history, its HEAD still reaches
   that commit, and the commit's tree is the inventory of the published Result. No live Apply run holds the
   repository's lock or is still inside that attempt.
   */
  lemma RecoveryIsSound(s: State, a: AgentId, r: Record, result: Identity)
    requires Reachable(s) && RecoverAttempt(s, a, r, result).Some?
    ensures HonestPin(s, r) && Present(s, result) && Some(s.files[result.path]) == r.resultSha
    ensures var fact := s.pins[r.runId.value];
            RecordFor(RecoverAttempt(s, a, r, result).value.ledger, r.identity)
              == Some(r.(status := Some(Succeeded), completedCommit := fact.capture.completed))
    ensures var fact := s.pins[r.runId.value];
            && fact.selection.repoId in s.repos && ValidGit(s.repos[fact.selection.repoId].git)
            && Reaches(s.repos[fact.selection.repoId].git.history, fact.capture.head.baseCommit,
                   fact.selection.baseCommit)
    ensures r.manifest.Some? && RecordFor(s.ledger, r.identity) == Some(r) && r.status == Some(Attempted)
    ensures r.identity.path in s.files && s.files[r.identity.path] == r.identity.sha256
    ensures r.identity.sha256 in s.meaning && s.meaning[r.identity.sha256].Proves?
            && s.meaning[r.identity.sha256].evidence.kind == PatchPackage
            && s.meaning[r.identity.sha256].evidence.selection == r.manifest.value
    ensures var fact := s.pins[r.runId.value];
            var repo := s.repos[fact.selection.repoId];
            && repo.lock == Some(a) && !repo.context.dirty && repo.git.original
            && Reaches(repo.git.history, repo.context.baseCommit, fact.capture.head.baseCommit)
            && fact.capture.head.baseCommit in repo.git.history
            && result.sha256 in s.meaning && s.meaning[result.sha256].Proves?
            && repo.git.history[fact.capture.head.baseCommit].tree == s.meaning[result.sha256].evidence.baseEntries
            && s.meaning[result.sha256].evidence.receipt
                 == Some(Receipt(r.identity.sha256, r.runId.value, r.manifest.value, fact.capture.head.baseCommit))
    ensures forall b | b in s.agents && s.agents[b].Applying? :: HeldRepo(s.agents[b]) != Some(r.manifest.value.repoId)
    ensures r.runId.value in s.agents && s.agents[r.runId.value].Applying? ==>
              !InAttempt(s.agents[r.runId.value].run.stage)
  {
    hide Reachable, Inv, RecordFor, HonestPin, RecoverAttempt, InAttempt, ValidGit;
    ReachableStatesAreSafe(s);
    RecoveryIsScoped(s, a, r, result);
    RecoveryRechecks(s, a, r, result);
    RecoveryFindsTheCommit(s, a, r, result);
    RecoveryChecksTheReceipt(s, a, r, result);
    PinIsOfItsRecord(s, r);
    LockMeansNoLiveRun(s, a, r);
    RecoveryWritesTheReceipt(s, a, r, result);
  }

  /** Under whose lock a record is swapped, and that it is still the pinned attempt the pass has listed. */
  lemma RecoveryIsScoped(s: State, a: AgentId, r: Record, result: Identity)
    requires Inv(s) && RecoverAttempt(s, a, r, result).Some?
    ensures RecordFor(s.ledger, r.identity) == Some(r) && r.status == Some(Attempted) && r.manifest.Some?
    ensures r.resultSha == Some(result.sha256) && LedgerValid(s.ledger) && HonestPin(s, r)
    ensures a in s.agents && s.agents[a].Recovering? && s.agents[a].repoId == r.manifest.value.repoId
    ensures HeldRepo(s.agents[a]) == Some(r.manifest.value.repoId)
    ensures r.manifest.value.repoId in s.repos && s.repos[r.manifest.value.repoId].lock == Some(a)
  {
    hide ProvenResult, HonestPin;
    RecoveredRecordIsScoped(s, a, r, result);
    PinnedDigestsAreHonest(s, r);
  }

  lemma PinIsOfItsRecord(s: State, r: Record)
    requires HonestPin(s, r)
    ensures r.runId.Some? && r.runId.value in s.pins && Some(s.pins[r.runId.value].selection) == r.manifest
    ensures s.pins[r.runId.value].capture.completed == Some(s.pins[r.runId.value].capture.head.baseCommit)
  {
  }

  /** Both files lie there with the bytes they were scanned with, and the package proves the recorded binding. */
  lemma RecoveryRechecks(s: State, a: AgentId, r: Record, result: Identity)
    requires RecoverAttempt(s, a, r, result).Some?
    ensures r.identity.path in s.files && s.files[r.identity.path] == r.identity.sha256
    ensures result.path in s.files && s.files[result.path] == result.sha256
    ensures r.identity.sha256 in s.meaning && s.meaning[r.identity.sha256].Proves?
            && s.meaning[r.identity.sha256].evidence.kind == PatchPackage
            && Some(s.meaning[r.identity.sha256].evidence.selection) == r.manifest
    ensures result.sha256 in s.meaning && s.meaning[result.sha256].Proves?
  {
    hide ProvenResult, Apply;
  }

  /** The Result states the very run: this package, this binding, this run, and its commit as the completion. */
  lemma RecoveryChecksTheReceipt(s: State, a: AgentId, r: Record, result: Identity)
    requires RecoverAttempt(s, a, r, result).Some?
    ensures r.manifest.Some? && r.runId.Some? && result.sha256 in s.meaning && s.meaning[result.sha256].Proves?
    ensures var evidence := s.meaning[result.sha256].evidence;
            evidence.receipt == Some(Receipt(r.identity.sha256, r.runId.value, r.manifest.value,
                                             evidence.selection.baseCommit))
  {
    hide ProvenResultState, Ancestor, Apply;
  }

  /** The repository at the swap: clean and original, its HEAD reaches the Result's commit, with the Result's tree. */
  lemma RecoveryFindsTheCommit(s: State, a: AgentId, r: Record, result: Identity)
    requires Inv(s) && RecoverAttempt(s, a, r, result).Some?
    ensures r.manifest.Some? && r.runId.Some? && r.runId.value in s.pins && r.manifest.value.repoId in s.repos
    ensures result.sha256 in s.meaning && s.meaning[result.sha256].Proves?
    ensures var c, repo := s.pins[r.runId.value].capture.head.baseCommit, s.repos[r.manifest.value.repoId];
            && s.meaning[result.sha256].evidence.selection.baseCommit == c && ValidGit(repo.git)
            && !repo.context.dirty && repo.git.original && Reaches(repo.git.history, repo.context.baseCommit, c)
            && c in repo.git.history && repo.git.history[c].tree == s.meaning[result.sha256].evidence.baseEntries
            && Reaches(repo.git.history, c, r.manifest.value.baseCommit)
    ensures s.meaning[result.sha256].evidence.receipt.Some?
            && s.meaning[result.sha256].evidence.receipt.value.completedCommit
                 == s.pins[r.runId.value].capture.head.baseCommit
    ensures StillContains(s.repos[r.manifest.value.repoId], s.meaning[result.sha256].evidence,
                r.manifest.value.baseCommit)
  {
    hide Inv, RecordFor, RecoverAttempt;
    RecoveryIsScoped(s, a, r, result);
    RecoveryRechecks(s, a, r, result);
    PinnedReceiptMatches(s, r);
    RecoveryProvesTheState(s, a, r, result);
    RecoveryWritesTheReceipt(s, a, r, result);
  }

  lemma RecoveryProvesTheState(s: State, a: AgentId, r: Record, result: Identity)
    requires RecoverAttempt(s, a, r, result).Some?
    ensures a in s.agents && s.agents[a].Recovering? && s.agents[a].repoId in s.repos
    ensures result.sha256 in s.meaning && s.meaning[result.sha256].Proves?
    ensures s.meaning[result.sha256].evidence.receipt.Some?
    ensures s.meaning[result.sha256].evidence.receipt.value.completedCommit
              == s.meaning[result.sha256].evidence.selection.baseCommit
    ensures var repo, evidence := s.repos[s.agents[a].repoId], s.meaning[result.sha256].evidence;
            var c := evidence.selection.baseCommit;
            && ValidGit(repo.git) && !repo.context.dirty && repo.git.original
            && Reaches(repo.git.history, repo.context.baseCommit, c)
            && c in repo.git.history && repo.git.history[c].tree == evidence.baseEntries
  {
    hide Apply, RecordFor, ProvenResultState, Ancestor;
    var repo, evidence := s.repos[s.agents[a].repoId], s.meaning[result.sha256].evidence;
    ResultStateMeans(repo.git, evidence, repo.context);
  }

  lemma RecoveryWritesTheReceipt(s: State, a: AgentId, r: Record, result: Identity)
    requires LedgerValid(s.ledger) && RecoverAttempt(s, a, r, result).Some?
    ensures r.manifest.Some? && s.meaning[result.sha256].evidence.receipt.Some?
    ensures var c := s.meaning[result.sha256].evidence.receipt.value.completedCommit;
            && RecordFor(RecoverAttempt(s, a, r, result).value.ledger, r.identity)
                 == Some(r.(status := Some(Succeeded), completedCommit := Some(c)))
            && Reaches(s.repos[s.agents[a].repoId].git.history, c, r.manifest.value.baseCommit)
  {
    var c := s.meaning[result.sha256].evidence.receipt.value.completedCommit;
    AncestorMeans(s.repos[s.agents[a].repoId].git, r.manifest.value.baseCommit, c);
    LifecycleEffect(s.ledger, Recover(r, c));
  }

  /**
   Completeness: an orphan whose pinned Result is usable is recovered by any pass that scanned the
   unchanged files, listed the record and holds the lock, as soon as HEAD is clean and still contains
   the run's commit with its tree.
   */
  lemma IntactOrphanIsRecoverable(s: State, a: AgentId, r: Record, result: Identity)
    requires Reachable(s) && a in s.agents && s.agents[a].Recovering? && s.agents[a].pass.Proving?
    requires RecordFor(s.ledger, r.identity) == Some(r) && r in s.agents[a].pending
    requires r.identity in s.agents[a].scanned && result in s.agents[a].scanned && r.resultSha == Some(result.sha256)
    requires Present(s, r.identity) && Present(s, result)
    requires r.identity.sha256 in s.meaning && s.meaning[r.identity.sha256].Proves?
             && s.meaning[r.identity.sha256].evidence.kind == PatchPackage
             && Some(s.meaning[r.identity.sha256].evidence.selection) == r.manifest
    requires result.sha256 in s.meaning && s.meaning[result.sha256].Proves?
    requires s.agents[a].repoId in s.repos && s.repos[s.agents[a].repoId].context == s.agents[a].pass.context
    requires r.manifest.Some?
             && StillContains(s.repos[s.agents[a].repoId], s.meaning[result.sha256].evidence,
                 r.manifest.value.baseCommit)
    ensures RecoverAttempt(s, a, r, result).Some?
  {
    var repo, evidence := s.repos[s.agents[a].repoId], s.meaning[result.sha256].evidence;
    ReachableStatesAreSafe(s);
    PendingIsInScope(s, a, r);
    PinnedReceiptMatches(s, r);
    EvidenceProvesResult(repo, evidence, r);
    hide StillContains, ProvenResult;
    SwapIsAccepted(s.ledger, r, evidence.selection.baseCommit);
    hide Reachable, Core, ProvenResult, RecordFor, Apply, IsPinnedAttempt;
  }

  lemma PendingIsInScope(s: State, a: AgentId, r: Record)
    requires PassesInv(s) && ReposValid(s.repos) && a in s.agents && s.agents[a].Recovering?
             && s.agents[a].pass.Proving?
    requires r in s.agents[a].pending && s.agents[a].repoId in s.repos
    ensures IsPinnedAttempt(r) && r.manifest.Some? && r.manifest.value.repoId == s.agents[a].repoId
    ensures s.repos[s.agents[a].repoId].context.repoId == s.agents[a].repoId
  {
    assert PassInv(s.ledger, s.seen, s.agents[a]);
  }

  lemma EvidenceProvesResult(repo: Repository, evidence: Evidence, r: Record)
    requires r.manifest.Some? && StillContains(repo, evidence, r.manifest.value.baseCommit)
    requires evidence.kind == ResultBundle && MatchesReceipt(r, evidence)
             && evidence.selection.repoId == repo.context.repoId
    ensures ProvenResult(r, evidence, repo.git, repo.context)
  {
    ResultStateMeans(repo.git, evidence, repo.context);
    AncestorMeans(repo.git, r.manifest.value.baseCommit, evidence.selection.baseCommit);
    ReachedIsKnownAndNotHigher(repo.git.history, evidence.selection.baseCommit, r.manifest.value.baseCommit);
  }

  lemma SwapIsAccepted(ledger: seq<Record>, r: Record, c: CommitId)
    requires RecordFor(ledger, r.identity) == Some(r) && IsPinnedAttempt(r) && RecordValid(r)
    requires r.manifest.Some? && c != r.manifest.value.baseCommit && c.format == r.manifest.value.baseCommit.format
    ensures Apply(ledger, Recover(r, c)).Ok?
  {
  }

  /** HEAD is clean and original, and reaches the Result's commit, which has the recorded tree and follows `base`. */
  ghost predicate StillContains(repo: Repository, evidence: Evidence, base: CommitId) {
    && !repo.context.dirty && repo.git.original && ValidGit(repo.git)
    && Reaches(repo.git.history, repo.context.baseCommit, evidence.selection.baseCommit)
    && evidence.selection.baseCommit in repo.git.history
    && repo.git.history[evidence.selection.baseCommit].tree == evidence.baseEntries
    && Reaches(repo.git.history, evidence.selection.baseCommit, base)
  }

  /**
   Recoverability persists: whatever a repository still contains, it contains after every clean forward move of
   HEAD.
   */
  lemma StillContainsAfterForwardMoves(repo: Repository, later: Repository, evidence: Evidence, base: CommitId)
    requires StillContains(repo, evidence, base) && ValidGit(later.git)
    requires CleanForwardMove(repo.git, repo.context, later.git, later.context)
    ensures StillContains(later, evidence, base)
  {
    var h, h', c := repo.git.history, later.git.history, evidence.selection.baseCommit;
    ReachedIsKnownAndNotHigher(h, repo.context.baseCommit, c);
    GrowthKeepsReachability(h, h', c, base);
    ReachedIsKnownAndNotHigher(h', later.context.baseCommit, repo.context.baseCommit);
    HeadIsKnown(h, repo.context.baseCommit, c);
    GrowthKeepsReachability(h, h', repo.context.baseCommit, c);
    ReachesIsTransitive(h', later.context.baseCommit, repo.context.baseCommit, c);
  }

  lemma HeadIsKnown(h: History, d: CommitId, a: CommitId)
    requires ValidHistory(h) && Reaches(h, d, a)
    ensures d in h
  {
  }

  /** The usable bytes behind a pinned digest carry exactly the receipt its record asks for. */
  lemma PinnedReceiptMatches(s: State, r: Record)
    requires Inv(s) && RecordFor(s.ledger, r.identity) == Some(r) && r.resultSha.Some?
    requires r.resultSha.value in s.meaning && s.meaning[r.resultSha.value].Proves?
    ensures var evidence := s.meaning[r.resultSha.value].evidence;
            && evidence.kind == ResultBundle && MatchesReceipt(r, evidence) && r.manifest.Some? && RecordValid(r)
            && r.runId.Some?
            && evidence.receipt == Some(Receipt(r.identity.sha256, r.runId.value, r.manifest.value,
                                                evidence.selection.baseCommit))
            && evidence.selection.repoId == r.manifest.value.repoId
            && r.runId.Some? && r.runId.value in s.pins
            && evidence.selection.baseCommit == s.pins[r.runId.value].capture.head.baseCommit
            && evidence.selection.baseCommit != r.manifest.value.baseCommit
            && evidence.selection.baseCommit.format == r.manifest.value.baseCommit.format
  {
    RecordForFinds(s.ledger, r.identity);
    assert RecordBacked(s, RecordFor(s.ledger, r.identity).value);
    var fact := s.pins[r.runId.value];
    assert s.captures[fact.capture.sha] == fact && FactHolds(s.meaning, fact);
    CompletionIsACleanStrictDescendant(fact.capture.git, fact.before, fact.capture.head, fact.capture.completed.value);
    ReachedIsKnownAndNotHigher(fact.capture.git.history, fact.capture.completed.value, fact.selection.baseCommit);
  }

  // ---------------------------------------------------------------- archival

  /** Archival never takes away a Result that a pending attempt pins, however stale its list is. */
  lemma ArchivalSparesPinnedResults(s: State, a: AgentId, id: Identity)
    requires Reachable(s) && ArchiveMove(s, a, id).Some?
    ensures NonePins(s.ledger, id.sha256)
    ensures forall r | r in s.ledger && r.status == Some(Attempted) && r.resultSha.Some? ::
              r.resultSha.value != id.sha256
  {
    ReachableStatesAreSafe(s);
    UnlistedDigestsAreUnpinned(s, a, id);
    NonePinsMeansNoRecord(s.ledger, id.sha256);
  }

  /**
   The file's bytes are a package whose recorded success lies strictly after its base and on the way to HEAD, or a
   Result whose commit lies strictly before HEAD on the way to it and has the inventory as its tree.
   */
  ghost predicate Superseded(repo: Repository, evidence: Evidence, record: Option<Record>)
    requires ValidGit(repo.git)
  {
    var h, head, base := repo.git.history, repo.context.baseCommit, evidence.selection.baseCommit;
    && !repo.context.dirty && repo.git.original
    && (|| (&& evidence.kind == PatchPackage
            && record.Some? && record.value.kind == PatchPackage && record.value.manifest == Some(evidence.selection)
            && record.value.status == Some(Succeeded) && record.value.completedCommit.Some?
            && record.value.completedCommit != Some(base)
            && Reaches(h, record.value.completedCommit.value, base)
            && Reaches(h, head, record.value.completedCommit.value))
        || (&& evidence.kind == ResultBundle && base != head && Reaches(h, head, base)
            && base in h && h[base].tree == evidence.baseEntries))
  }

  lemma ObsoleteMeansSuperseded(repo: Repository, evidence: Evidence, record: Option<Record>)
    requires ValidGit(repo.git)
    ensures ProvenObsolete(repo.git, evidence, repo.context, record) == Ok(true) <==>
              evidence.selection.repoId == repo.context.repoId && Superseded(repo, evidence, record)
  {
    if evidence.kind == PatchPackage {
      PatchObsoleteMeans(repo.git, evidence, repo.context, record);
    } else {
      ResultObsoleteMeans(repo.git, evidence, repo.context, record);
    }
  }

  /**
   Archival takes away only what the ledger and the locked repository prove superseded: a file that lies there as it
   was scanned, whose bytes name that repository, while HEAD is clean and history original.
   */
  lemma ArchivalIsProven(s: State, a: AgentId, id: Identity)
    requires Reachable(s) && ArchiveMove(s, a, id).Some?
    ensures id.path in s.files && s.files[id.path] == id.sha256
    ensures id.sha256 in s.meaning && s.meaning[id.sha256].Proves?
    ensures var evidence := s.meaning[id.sha256].evidence;
            && evidence.selection.repoId in s.repos
            && var repo := s.repos[evidence.selection.repoId];
              && repo.lock == Some(a) && repo.context.repoId == evidence.selection.repoId && ValidGit(repo.git)
              && Superseded(repo, evidence, RecordFor(s.ledger, id))
    ensures ArchiveMove(s, a, id).value == s.(files := s.files - {id.path})
  {
    hide Reachable, ProvenObsolete, RecordFor, ValidGit, Superseded;
    ReachableStatesAreSafe(s);
    PassHoldsItsLock(s, a);
    ObsoleteMeansSuperseded(s.repos[s.agents[a].repoId], s.meaning[id.sha256].evidence, RecordFor(s.ledger, id));
  }

  /** Completeness: a superseded file that a pass scanned and did not find pinned is archived once it has the lock. */
  lemma SupersededFileIsArchived(s: State, a: AgentId, id: Identity)
    requires Reachable(s) && a in s.agents && s.agents[a].Archiving? && s.agents[a].pass.Proving?
    requires id in s.agents[a].scanned && id.sha256 !in s.agents[a].pinned
    requires id.path in s.files && s.files[id.path] == id.sha256
    requires id.sha256 in s.meaning && s.meaning[id.sha256].Proves?
             && s.meaning[id.sha256].evidence.selection.repoId == s.agents[a].repoId
    requires s.agents[a].repoId in s.repos && ValidGit(s.repos[s.agents[a].repoId].git)
             && s.repos[s.agents[a].repoId].context == s.agents[a].pass.context
             && Superseded(s.repos[s.agents[a].repoId], s.meaning[id.sha256].evidence, RecordFor(s.ledger, id))
    ensures ArchiveMove(s, a, id) == Some(s.(files := s.files - {id.path}))
  {
    hide Reachable, ProvenObsolete, RecordFor, ValidGit, Superseded;
    ReachableStatesAreSafe(s);
    ObsoleteMeansSuperseded(s.repos[s.agents[a].repoId], s.meaning[id.sha256].evidence, RecordFor(s.ledger, id));
  }

  lemma PassHoldsItsLock(s: State, a: AgentId)
    requires LocksAgree(s.agents, s.repos) && a in s.agents && s.agents[a].Archiving? && s.agents[a].pass.Proving?
    ensures s.agents[a].repoId in s.repos && s.repos[s.agents[a].repoId].lock == Some(a)
  {
  }

  lemma UnlistedDigestsAreUnpinned(s: State, a: AgentId, id: Identity)
    requires PassesInv(s) && a in s.agents && s.agents[a].Archiving? && s.agents[a].pass != Scanning
    requires id in s.agents[a].scanned && id.sha256 !in s.agents[a].pinned
    ensures NonePins(s.ledger, id.sha256)
  {
    assert PassInv(s.ledger, s.seen, s.agents[a]);
  }

  lemma NonePinsMeansNoRecord(ledger: seq<Record>, sha: string)
    requires LedgerValid(ledger) && NonePins(ledger, sha)
    ensures forall r | r in ledger && r.status == Some(Attempted) && r.resultSha.Some? :: r.resultSha.value != sha
  {
    forall r | r in ledger && r.status == Some(Attempted) && r.resultSha.Some? ensures r.resultSha.value != sha {
      RecordForFinds(ledger, r.identity);
      assert !PinnedBy(RecordFor(ledger, r.identity), sha);
    }
  }

  // ---------------------------------------------------------------- publication

  /**
   A Result with a completion commit appears only when the ledger already pins its digest for the running attempt; it
   takes a free path and displaces nothing.
   */
  lemma ResultIsPinnedBeforeItAppears(s: State, a: AgentId, path: string)
    requires Reachable(s) && PublishResult(s, a, path).Some?
    ensures path !in s.files && RunOf(s, a).Some? && RunOf(s, a).value.capture.Some?
    ensures var run, next := RunOf(s, a).value, PublishResult(s, a, path).value;
            && next.files == s.files[path := run.capture.value.sha] && next.ledger == s.ledger
            && run.capture.value.sha in s.captures && s.captures[run.capture.value.sha].runId == a
            && RecordFor(s.ledger, run.identity).Some?
            && var r := RecordFor(s.ledger, run.identity).value;
              && r.status == Some(Attempted) && r.runId == Some(a) && r.manifest == Some(run.selection)
              && (run.capture.value.completed.Some? ==> r.resultSha == Some(run.capture.value.sha))
  {
    hide Reachable, RecordFor, Inv, OwnedRecord, HasPinned;
    ReachableStatesAreSafe(s);
    PublisherOwnsItsAttempt(s, a, RunOf(s, a).value);
  }

  lemma PublisherOwnsItsAttempt(s: State, a: AgentId, run: ApplyRun)
    requires Inv(s) && RunOf(s, a) == Some(run) && run.capture.Some? && run.stage in {Captured, Pinned}
    ensures run.capture.value.sha in s.captures && s.captures[run.capture.value.sha].runId == a
    ensures RecordFor(s.ledger, run.identity).Some?
    ensures var r := RecordFor(s.ledger, run.identity).value;
            && r.status == Some(Attempted) && r.runId == Some(a) && r.manifest == Some(run.selection)
            && (run.stage == Pinned ==> r.resultSha == Some(run.capture.value.sha))
  {
    hide RecordFor, FactsInv, ReposValid, LedgerValid;
    assert RunInv(s, a, run);
  }

  // ---------------------------------------------------------------- automatic runs

  /** Over every schedule, at most one automatic run of one identity ever enters the payload-write phase. */
  lemma AtMostOneAutomaticMutation(s: State, id: Identity, x: AgentId, y: AgentId)
    requires Reachable(s) && Entry(id, x) in s.autoWrites && Entry(id, y) in s.autoWrites
    ensures x == y
  {
    ReachableStatesAreSafe(s);
  }

  /** Inside an attempt the ledger carries exactly that attempt: recorded before any write, kept to the end. */
  lemma AttemptPrecedesWrites(s: State, a: AgentId)
    requires Reachable(s) && RunOf(s, a).Some? && InAttempt(RunOf(s, a).value.stage)
    ensures RecordFor(s.ledger, RunOf(s, a).value.identity) == Some(OwnedRecord(a, RunOf(s, a).value))
  {
    ReachableStatesAreSafe(s);
    assert RunInv(s, a, s.agents[a].run);
  }

  /**
   An attempt is recorded only for the repository state and the file the package was made for: under the run's own
   lock, with the manifest's exact binding, unchanged since the lock was taken, while the package lies there; and only
   over a record that is fresh, failed and asked to be retried, or selected explicitly.
   */
  lemma AttemptIsRechecked(s: State, a: AgentId)
    requires Reachable(s) && RecordAttempt(s, a).Some?
    ensures RunOf(s, a).Some? && RunOf(s, a).value.selection.repoId in s.repos
    ensures var run := RunOf(s, a).value;
            var repo := s.repos[run.selection.repoId];
            && repo.lock == Some(a) && run.before == Some(repo.context)
            && repo.context.repoId == run.selection.repoId && repo.context.baseCommit == run.selection.baseCommit
            && repo.context.fingerprint == run.selection.fingerprint
            && repo.context.algorithm == run.selection.algorithm
            && run.identity.path in s.files && s.files[run.identity.path] == run.identity.sha256
    ensures var run := RunOf(s, a).value;
            && RecordFor(s.ledger, run.identity).Some?
            && var r := RecordFor(s.ledger, run.identity).value;
              && r.kind == PatchPackage && r.manifest == Some(run.selection)
              && (r.status.None? || run.mode.Explicit?
                  || (r.status == Some(Failed) && run.mode.Manual? && run.mode.retryFailed))
              && RecordFor(RecordAttempt(s, a).value.ledger, run.identity)
                   == Some(Record(run.identity, PatchPackage, Some(run.selection), Some(Attempted), None, Some(a),
                                  None))
  {
    hide Reachable, Inv, MatchesContext;
    ReachableStatesAreSafe(s);
    LockedRunIsBound(s, a);
    StartRewritesTheRecord(s, a);
  }

  lemma LockedRunIsBound(s: State, a: AgentId)
    requires Inv(s) && RunOf(s, a).Some? && RunOf(s, a).value.stage == Locked
    ensures var run := RunOf(s, a).value;
            && run.selection.repoId in s.repos && s.repos[run.selection.repoId].lock == Some(a) && run.before.Some?
            && run.before.value.repoId == run.selection.repoId
            && run.before.value.baseCommit == run.selection.baseCommit
            && run.before.value.fingerprint == run.selection.fingerprint
            && run.before.value.algorithm == run.selection.algorithm
    ensures LedgerValid(s.ledger)
  {
    assert RunInv(s, a, RunOf(s, a).value);
    assert HeldRepo(s.agents[a]) == Some(RunOf(s, a).value.selection.repoId);
  }

  lemma StartRewritesTheRecord(s: State, a: AgentId)
    requires LedgerValid(s.ledger) && RecordAttempt(s, a).Some?
    ensures var run := RunOf(s, a).value;
            && RecordFor(s.ledger, run.identity).Some?
            && var r := RecordFor(s.ledger, run.identity).value;
              && r.kind == PatchPackage && r.manifest == Some(run.selection)
              && (r.status.None? || run.mode.Explicit?
                  || (r.status == Some(Failed) && run.mode.Manual? && run.mode.retryFailed))
              && RecordFor(RecordAttempt(s, a).value.ledger, run.identity)
                   == Some(Record(run.identity, PatchPackage, Some(run.selection), Some(Attempted), None, Some(a),
                                  None))
  {
    LifecycleEffect(s.ledger, StartOp(RunOf(s, a).value, a));
  }

  /** In every reachable ledger a success that names a run goes back to an entrypoint that exited zero. */
  lemma SuccessMeansExitZero(s: State, r: Record)
    requires Reachable(s) && r in s.ledger && r.status == Some(Succeeded) && r.runId.Some?
    ensures r.runId.value in s.exitedZero
  {
    ReachableStatesAreSafe(s);
    RecordForFinds(s.ledger, r.identity);
    assert RecordBacked(s, RecordFor(s.ledger, r.identity).value);
  }

  // ---------------------------------------------------------------- the owner is never locked out

  /** No interleaving makes the ledger refuse the digest or the outcome of the run that owns the attempt. */
  lemma OwnerIsNeverRefused(s: State, a: AgentId)
    requires Reachable(s) && RunOf(s, a).Some?
    ensures var run := RunOf(s, a).value;
            && (run.stage == Captured && run.capture.Some? && run.capture.value.completed.Some? ==>
                   PinResult(s, a).Some?)
            && (run.stage in {Exited, Captured, Pinned, Published} ==> RecordOutcome(s, a).Some?)
  {
    ReachableStatesAreSafe(s);
    var run := RunOf(s, a).value;
    if InAttempt(run.stage) {
      OwnedRecordIsValid(s, a, run);
      if run.stage == Captured { OwnerMayPin(s, a, run); }
      if run.stage in {Exited, Captured, Pinned, Published} { OwnerMaySettle(s, a, run); }
    }
  }

  lemma OwnedRecordIsValid(s: State, a: AgentId, run: ApplyRun)
    requires LedgerValid(s.ledger) && RunsInv(s) && RunOf(s, a) == Some(run) && InAttempt(run.stage)
    ensures RecordFor(s.ledger, run.identity) == Some(OwnedRecord(a, run)) && RecordValid(OwnedRecord(a, run))
  {
    assert RunInv(s, a, run);
    RecordForFinds(s.ledger, run.identity);
  }

  lemma OwnerMayPin(s: State, a: AgentId, run: ApplyRun)
    requires RunsInv(s) && FactsInv(s.meaning, s.captures) && RunOf(s, a) == Some(run) && run.stage == Captured
    requires RecordFor(s.ledger, run.identity) == Some(OwnedRecord(a, run)) && RecordValid(OwnedRecord(a, run))
    ensures run.capture.Some? && run.capture.value.completed.Some? ==> PinResult(s, a).Some?
  {
    assert RunInv(s, a, run);
    assert FactHolds(s.meaning, s.captures[run.capture.value.sha]);
  }

  lemma OwnerMaySettle(s: State, a: AgentId, run: ApplyRun)
    requires RunsInv(s) && LocksAgree(s.agents, s.repos) && ReposValid(s.repos)
    requires RunOf(s, a) == Some(run) && run.stage in {Exited, Captured, Pinned, Published}
    requires RecordFor(s.ledger, run.identity) == Some(OwnedRecord(a, run)) && RecordValid(OwnedRecord(a, run))
    ensures RecordOutcome(s, a).Some?
  {
    assert RunInv(s, a, run);
    CompletionFits(s, run);
    OwnerOutcomeAccepted(s.ledger, a, run, Completion(s, run));
  }

  lemma CompletionFits(s: State, run: ApplyRun)
    requires run.before.Some? && run.selection.repoId in s.repos && ValidGit(s.repos[run.selection.repoId].git)
    requires MatchesContext(run.selection, run.before.value)
    ensures var commit := Completion(s, run);
            commit.Some? ==>
              run.exitZero && commit.value != run.selection.baseCommit
              && commit.value.format == run.selection.baseCommit.format
  {
    var repo, commit := s.repos[run.selection.repoId], Completion(s, run);
    if commit.Some? {
      CompletionIsACleanStrictDescendant(repo.git, run.before.value, repo.context, commit.value);
      ReachedIsKnownAndNotHigher(repo.git.history, commit.value, run.before.value.baseCommit);
    }
  }

  lemma OwnerOutcomeAccepted(ledger: seq<Record>, a: AgentId, run: ApplyRun, commit: Option<CommitId>)
    requires RecordFor(ledger, run.identity) == Some(OwnedRecord(a, run)) && RecordValid(OwnedRecord(a, run))
    requires commit.Some? ==>
               run.exitZero && commit.value != run.selection.baseCommit
               && commit.value.format == run.selection.baseCommit.format
    ensures Apply(ledger,
                Finish(run.identity, run.selection, if run.exitZero then Succeeded else Failed, commit, Some(a))).Ok?
  {
  }
}
