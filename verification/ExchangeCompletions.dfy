/**
 Where recorded completion commits come from: every one of them was, when its run recorded its outcome or captured
 its Result, a clean HEAD strictly after the package base.
 */
module ExchangeCompletions {
  import opened Prelude
  import opened Bindings
  import opened CommitGraph
  import opened ArchiveGit
  import opened ExchangeLedger
  import opened ExchangeProtocol
  import opened ExchangeInvariant
  import opened ExchangeSteps
  import opened ExchangeTheorems

  ghost predicate Proven(f: CompletionFact) {
    ValidGit(f.git) && MatchesContext(f.selection, f.before)
      && CompletedCommit(f.git, f.before, f.head) == Ok(Some(f.commit))
  }

  /** The run named in the record recorded this completion with its outcome. */
  predicate FromOutcome(s: State, r: Record, f: CompletionFact) {
    && f in s.completions && Some(f.runId) == r.runId && f.identity == r.identity && Some(f.selection) == r.manifest
    && Some(f.commit) == r.completedCommit
  }

  /** The run named in the record pinned a Result with this completion. */
  predicate FromPin(s: State, r: Record) {
    && r.runId.Some? && r.runId.value in s.pins
    && var fact := s.pins[r.runId.value];
      fact.identity == r.identity && Some(fact.selection) == r.manifest && fact.capture.completed == r.completedCommit
  }

  ghost predicate Backed(s: State, r: Record) { FromPin(s, r) || exists f :: FromOutcome(s, r, f) }

  ghost predicate AllProven(facts: set<CompletionFact>) { forall f | f in facts :: Proven(f) }

  ghost predicate CompletionsInv(s: State) {
    && AllProven(s.completions)
    && forall id :: RecordFor(s.ledger, id).Some? && RecordFor(s.ledger, id).value.completedCommit.Some? ==>
         Backed(s, RecordFor(s.ledger, id).value)
  }

  /** History only grows. */
  ghost predicate HistoryGrows(s: State, t: State) {
    s.completions <= t.completions && forall x | x in s.pins :: x in t.pins && t.pins[x] == s.pins[x]
  }

  lemma BackedStays(s: State, t: State, r: Record)
    requires HistoryGrows(s, t) && Backed(s, r)
    ensures Backed(t, r)
  {
    if !FromPin(s, r) {
      var f :| FromOutcome(s, r, f);
      assert FromOutcome(t, r, f);
    }
  }

  /** A step that changes at most the record of `target`. */
  lemma OneRecordKeeps(s: State, t: State, target: Identity)
    requires CompletionsInv(s) && HistoryGrows(s, t) && AllProven(t.completions)
    requires forall id :: id != target ==> RecordFor(t.ledger, id) == RecordFor(s.ledger, id)
    requires RecordFor(t.ledger, target).Some? && RecordFor(t.ledger, target).value.completedCommit.Some? ==>
               Backed(t, RecordFor(t.ledger, target).value)
    ensures CompletionsInv(t)
  {
    hide RecordFor, Backed, AllProven, HistoryGrows;
    forall id | RecordFor(t.ledger, id).Some? && RecordFor(t.ledger, id).value.completedCommit.Some?
      ensures Backed(t, RecordFor(t.ledger, id).value)
    {
      if id != target { BackedStays(s, t, RecordFor(s.ledger, id).value); }
    }
  }

  // ---------------------------------------------------------------- steps that leave the ledger and the history

  ghost predicate SameHistory(s: State, next: Option<State>) {
    next.Some? ==>
      next.value.ledger == s.ledger && next.value.pins == s.pins && next.value.completions == s.completions
  }

  lemma SameHistoryKeeps(s: State, t: State)
    requires CompletionsInv(s) && SameHistory(s, Some(t))
    ensures CompletionsInv(t)
  {
    hide RecordFor, Backed, Proven;
    forall id | RecordFor(t.ledger, id).Some? && RecordFor(t.ledger, id).value.completedCommit.Some?
      ensures Backed(t, RecordFor(t.ledger, id).value)
    {
      BackedStays(s, t, RecordFor(s.ledger, id).value);
    }
  }

  lemma RunStepsKeepHistory(s: State, a: AgentId, step: Step)
    requires step.ABegin? || step.ALock? || step.AWrite? || step.AExit? || step.APublish? || step.AStop?
    ensures SameHistory(s, Next(s, a, step))
  {
    hide MatchesContext, HeldRepo;
  }

  lemma CaptureKeepsHistory(s: State, a: AgentId, sha: string, warned: bool)
    ensures SameHistory(s, CaptureResult(s, a, sha, warned))
  {
    hide Completion, ResultContent;
  }

  lemma BeginKeepsHistory(s: State, a: AgentId, agent: Agent, path: string)
    ensures SameHistory(s, BeginPass(s, a, agent)) && SameHistory(s, ScanFile(s, a, path))
  {
  }

  lemma LoadKeepsHistory(s: State, a: AgentId)
    ensures SameHistory(s, LoadPending(s, a))
  {
    hide IsPinnedAttempt;
  }

  lemma ScanStepsKeepHistory(s: State, a: AgentId, step: Step)
    requires step.PBegin? || step.PScan? || step.PLoad?
    ensures SameHistory(s, Next(s, a, step))
  {
    hide BeginPass, ScanFile, LoadPending, SameHistory;
    match step
    case PBegin(agent) => BeginKeepsHistory(s, a, agent, "");
    case PScan(path) => BeginKeepsHistory(s, a, Holding(""), path);
    case PLoad => LoadKeepsHistory(s, a);
  }

  lemma PassStepsKeepHistory(s: State, a: AgentId, step: Step)
    requires step.PLock? || step.PUnlock? || step.PArchive?
    ensures SameHistory(s, Next(s, a, step))
  {
    hide LockForPass, UnlockPass, ArchiveMove, SameHistory;
    match step
    case PLock => LockingKeepsHistory(s, a);
    case PUnlock => UnlockingKeepsHistory(s, a);
    case PArchive(id) => ArchivingKeepsHistory(s, a, id);
  }

  lemma LockingKeepsHistory(s: State, a: AgentId)
    ensures SameHistory(s, LockForPass(s, a))
  {
  }

  lemma UnlockingKeepsHistory(s: State, a: AgentId)
    ensures SameHistory(s, UnlockPass(s, a))
  {
  }

  lemma ArchivingKeepsHistory(s: State, a: AgentId, id: Identity)
    ensures SameHistory(s, ArchiveMove(s, a, id))
  {
    hide ArchiveProof;
  }

  lemma OutsideStepsKeepHistory(s: State, a: AgentId, step: Step)
    requires step.UPut? || step.URemove? || step.URepository?
    ensures SameHistory(s, Next(s, a, step))
  {
    hide IsPrivate, ValidGit;
  }

  predicate WritesLedger(step: Step) {
    step.ARecord? || step.APin? || step.AOutcome? || step.PMerge? || step.PRecover?
  }

  lemma OtherStepsKeepHistory(s: State, a: AgentId, step: Step)
    requires !WritesLedger(step)
    ensures SameHistory(s, Next(s, a, step))
  {
    hide Next, SameHistory;
    if step.ACapture? {
      CaptureKeepsHistory(s, a, step.sha, step.warned);
      CaptureIsTheStep(s, a, step);
    } else if step.PBegin? || step.PScan? || step.PLoad? {
      ScanStepsKeepHistory(s, a, step);
    } else if step.PLock? || step.PUnlock? || step.PArchive? {
      PassStepsKeepHistory(s, a, step);
    } else if step.UPut? || step.URemove? || step.URepository? {
      OutsideStepsKeepHistory(s, a, step);
    } else {
      RunStepsKeepHistory(s, a, step);
    }
  }

  // ---------------------------------------------------------------- steps that write the ledger

  lemma InvariantParts(s: State)
    requires Inv(s) && CompletionsInv(s)
    ensures LedgerValid(s.ledger) && AllProven(s.completions)
  {
  }

  /** A lifecycle operation keeps the invariant if its new record has no completion or a backed one. */
  lemma OperationKeeps(s: State, t: State, op: Op, r: Record)
    requires LedgerValid(s.ledger) && CompletionsInv(s) && !op.Merge? && Apply(s.ledger, op) == Ok(t.ledger)
    requires HistoryGrows(s, t) && AllProven(t.completions)
    requires RecordFor(s.ledger, Target(op).value).Some? ==> RecordFor(s.ledger, Target(op).value) == Some(r)
    requires Updated(r, op).completedCommit.Some? ==> Backed(t, Updated(r, op))
    ensures CompletionsInv(t)
  {
    hide CompletionsInv, HistoryGrows, AllProven, Backed, Apply, Updated, RecordFor, LedgerValid;
    LifecycleEffect(s.ledger, op);
    OneRecordKeeps(s, t, Target(op).value);
  }

  lemma StartShape(s: State, a: AgentId, t: State)
    requires RecordAttempt(s, a) == Some(t)
    ensures RunOf(s, a).Some? && Apply(s.ledger, StartOp(RunOf(s, a).value, a)) == Ok(t.ledger)
    ensures t.pins == s.pins && t.completions == s.completions
  {
    hide Apply, StartOp, MatchesContext;
  }

  lemma StartedHasNoCompletion(r: Record, run: ApplyRun, a: AgentId)
    ensures Updated(r, StartOp(run, a)).completedCommit.None?
  {
  }

  lemma StartKeeps(s: State, a: AgentId, t: State)
    requires Inv(s) && CompletionsInv(s) && RecordAttempt(s, a) == Some(t)
    ensures CompletionsInv(t)
  {
    hide Inv, RecordAttempt, CompletionsInv, Apply, RecordFor, LedgerValid, AllProven, StartOp, Updated, Backed;
    InvariantParts(s);
    StartShape(s, a, t);
    var run := RunOf(s, a).value;
    var r := RecordFor(s.ledger, run.identity).GetOr(OwnedRecord(a, run));
    StartedHasNoCompletion(r, run, a);
    TargetOfStart(run, a);
    OperationKeeps(s, t, StartOp(run, a), r);
  }

  lemma TargetOfStart(run: ApplyRun, a: AgentId)
    ensures !StartOp(run, a).Merge? && Target(StartOp(run, a)) == Some(run.identity)
  {
  }

  lemma PinShape(s: State, a: AgentId, t: State)
    requires PinResult(s, a) == Some(t)
    ensures RunOf(s, a).Some? && RunOf(s, a).value.capture.Some? && RunOf(s, a).value.stage == Captured
    ensures var run := RunOf(s, a).value;
            Apply(s.ledger, Pin(run.identity, run.selection, a, run.capture.value.sha)) == Ok(t.ledger)
    ensures t.completions == s.completions && t.pins.Keys == s.pins.Keys + {a}
    ensures forall x | x in s.pins && x != a :: t.pins[x] == s.pins[x]
  {
    hide Apply;
  }

  lemma CapturedRunHasNoPin(s: State, a: AgentId)
    requires RunsInv(s) && RunOf(s, a).Some? && RunOf(s, a).value.stage == Captured
    ensures a !in s.pins
    ensures RecordFor(s.ledger, RunOf(s, a).value.identity) == Some(OwnedRecord(a, RunOf(s, a).value))
  {
    hide RecordFor, OwnedRecord;
    assert RunInv(s, a, RunOf(s, a).value);
  }

  lemma InvHasRuns(s: State)
    requires Inv(s)
    ensures RunsInv(s)
  {
    hide RunsInv;
  }

  lemma DigestKeeps(s: State, a: AgentId, t: State)
    requires Inv(s) && CompletionsInv(s) && PinResult(s, a) == Some(t)
    ensures CompletionsInv(t)
  {
    hide Inv, PinResult, CompletionsInv, Apply, RecordFor, LedgerValid, AllProven, Backed, RunsInv;
    InvariantParts(s);
    InvHasRuns(s);
    PinShape(s, a, t);
    CapturedRunHasNoPin(s, a);
    var run := RunOf(s, a).value;
    OperationKeeps(s, t, Pin(run.identity, run.selection, a, run.capture.value.sha), OwnedRecord(a, run));
  }

  /** What an outcome records as completion is proven by the repository state of that moment. */
  lemma NewCompletionIsProven(s: State, run: ApplyRun, a: AgentId)
    requires run.before.Some? && run.selection.repoId in s.repos && ValidGit(s.repos[run.selection.repoId].git)
    requires MatchesContext(run.selection, run.before.value)
    ensures AllProven(NewCompletion(s, run, a))
  {
  }

  lemma OutcomeShape(s: State, a: AgentId, t: State)
    requires RecordOutcome(s, a) == Some(t)
    ensures RunOf(s, a).Some? && RunOf(s, a).value.before.Some? && RunOf(s, a).value.selection.repoId in s.repos
    ensures ValidGit(s.repos[RunOf(s, a).value.selection.repoId].git) && InAttempt(RunOf(s, a).value.stage)
    ensures t.pins == s.pins && t.completions == s.completions + NewCompletion(s, RunOf(s, a).value, a)
    ensures Apply(s.ledger, OutcomeOp(s, RunOf(s, a).value, a)) == Ok(t.ledger)
  {
    hide Apply, OutcomeOp, NewCompletion;
  }

  lemma OutcomeIsBacked(s: State, a: AgentId, run: ApplyRun, t: State)
    requires run.before.Some? && run.selection.repoId in s.repos && ValidGit(s.repos[run.selection.repoId].git)
    requires t.completions == s.completions + NewCompletion(s, run, a)
    ensures var r := Updated(OwnedRecord(a, run), OutcomeOp(s, run, a)); r.completedCommit.Some? ==> Backed(t, r)
  {
    hide Completion;
    var r := Updated(OwnedRecord(a, run), OutcomeOp(s, run, a));
    if r.completedCommit.Some? {
      var f :| f in NewCompletion(s, run, a);
      assert FromOutcome(t, r, f);
    }
  }

  lemma OwnerIsRecorded(s: State, a: AgentId)
    requires RunsInv(s) && RunOf(s, a).Some? && InAttempt(RunOf(s, a).value.stage)
    ensures RecordFor(s.ledger, RunOf(s, a).value.identity) == Some(OwnedRecord(a, RunOf(s, a).value))
    ensures RunOf(s, a).value.before.Some?
    ensures MatchesContext(RunOf(s, a).value.selection, RunOf(s, a).value.before.value)
  {
    hide RecordFor, OwnedRecord, MatchesContext;
    assert RunInv(s, a, RunOf(s, a).value);
  }

  lemma BothProven(some: set<CompletionFact>, more: set<CompletionFact>)
    requires AllProven(some) && AllProven(more)
    ensures AllProven(some + more)
  {
    hide Proven;
  }

  lemma TargetOfOutcome(s: State, run: ApplyRun, a: AgentId)
    requires run.before.Some? && run.selection.repoId in s.repos && ValidGit(s.repos[run.selection.repoId].git)
    ensures !OutcomeOp(s, run, a).Merge? && Target(OutcomeOp(s, run, a)) == Some(run.identity)
  {
    hide Completion;
  }

  lemma SettledKeeps(s: State, a: AgentId, t: State)
    requires Inv(s) && CompletionsInv(s) && RecordOutcome(s, a) == Some(t)
    ensures CompletionsInv(t)
  {
    hide Inv, RecordOutcome, CompletionsInv, Apply, RecordFor, LedgerValid, AllProven, NewCompletion, OutcomeOp;
    hide Backed, Updated, RunsInv, MatchesContext, ValidGit, InAttempt;
    InvariantParts(s);
    InvHasRuns(s);
    OutcomeShape(s, a, t);
    var run := RunOf(s, a).value;
    OwnerIsRecorded(s, a);
    NewCompletionIsProven(s, run, a);
    BothProven(s.completions, NewCompletion(s, run, a));
    OutcomeIsBacked(s, a, run, t);
    TargetOfOutcome(s, run, a);
    OperationKeeps(s, t, OutcomeOp(s, run, a), OwnedRecord(a, run));
  }

  lemma RecoverShape(s: State, a: AgentId, r: Record, result: Identity, t: State)
    requires RecoverAttempt(s, a, r, result) == Some(t)
    ensures t.pins == s.pins && t.completions == s.completions && a in s.agents
    ensures result.sha256 in s.meaning && s.meaning[result.sha256].Proves?
            && s.meaning[result.sha256].evidence.receipt.Some?
    ensures Apply(s.ledger, Recover(r, s.meaning[result.sha256].evidence.receipt.value.completedCommit)) == Ok(t.ledger)
  {
    ProofHasReceipt(s, s.agents[a], r, result);
    hide RecoveryProof, Apply;
  }

  lemma RecoveryScope(s: State, a: AgentId, r: Record, result: Identity)
    requires Inv(s) && RecoverAttempt(s, a, r, result).Some?
    ensures RecordFor(s.ledger, r.identity) == Some(r) && r.resultSha == Some(result.sha256)
  {
    RecoveredRecordIsScoped(s, a, r, result);
    hide ProvenResult, Core, Apply;
  }

  lemma PinBacks(s: State, t: State, r: Record, c: CommitId)
    requires FromPin(s, r.(status := Some(Succeeded), completedCommit := Some(c))) && t.pins == s.pins
    ensures Backed(t, Updated(r, Recover(r, c)))
  {
  }

  lemma RecoveryKeeps(s: State, a: AgentId, r: Record, result: Identity, t: State)
    requires Inv(s) && CompletionsInv(s) && RecoverAttempt(s, a, r, result) == Some(t)
    ensures CompletionsInv(t)
  {
    hide Inv, RecoverAttempt, CompletionsInv, Apply, RecordFor, LedgerValid, AllProven, Backed, FromPin, Updated;
    InvariantParts(s);
    RecoverShape(s, a, r, result, t);
    RecoveryScope(s, a, r, result);
    var c := s.meaning[result.sha256].evidence.receipt.value.completedCommit;
    RecoveryIsFromPin(s, a, r, result);
    PinBacks(s, t, r, c);
    OperationKeeps(s, t, Recover(r, c), r);
  }

  lemma RecoveryIsFromPin(s: State, a: AgentId, r: Record, result: Identity)
    requires Inv(s) && RecoverAttempt(s, a, r, result).Some? && RecordFor(s.ledger, r.identity) == Some(r)
    requires r.resultSha == Some(result.sha256)
    requires result.sha256 in s.meaning && s.meaning[result.sha256].Proves?
             && s.meaning[result.sha256].evidence.receipt.Some?
    ensures var c := s.meaning[result.sha256].evidence.receipt.value.completedCommit;
            FromPin(s, r.(status := Some(Succeeded), completedCommit := Some(c)))
  {
    PinnedDigestsAreHonest(s, r);
    PinnedReceiptMatches(s, r);
    hide Inv, ProvenResult, Apply;
  }

  lemma ScanKeepsCompletions(s: State, candidates: seq<Record>, t: State)
    requires Inv(s) && CompletionsInv(s) && MergeScan(s, candidates) == Some(t)
    ensures CompletionsInv(t)
  {
    MergeKeepsKnownAndAddsFirst(s.ledger, candidates);
    forall id | RecordFor(t.ledger, id).Some? && RecordFor(t.ledger, id).value.completedCommit.Some?
      ensures Backed(t, RecordFor(t.ledger, id).value)
    {
      if RecordFor(s.ledger, id).Some? {
        BackedStays(s, t, RecordFor(s.ledger, id).value);
      } else {
        RecordForFinds(candidates, id);
      }
    }
  }

  // ---------------------------------------------------------------- every schedule

  lemma StepKeepsCompletions(s: State, a: AgentId, step: Step)
    requires Inv(s) && CompletionsInv(s) && Next(s, a, step).Some?
    ensures CompletionsInv(Next(s, a, step).value)
  {
    hide RecordAttempt, PinResult, RecordOutcome, MergeScan, RecoverAttempt, Inv;
    var t := Next(s, a, step).value;
    if !WritesLedger(step) {
      hide Next;
      OtherStepsKeepHistory(s, a, step);
      SameHistoryKeeps(s, t);
    } else {
      match step
      case ARecord => StartKeeps(s, a, t);
      case APin => DigestKeeps(s, a, t);
      case AOutcome => SettledKeeps(s, a, t);
      case PMerge(candidates) => ScanKeepsCompletions(s, candidates, t);
      case PRecover(r, result) => RecoveryKeeps(s, a, r, result, t);
    }
  }

  lemma {:induction false} EveryScheduleKeepsCompletions(s: State, schedule: seq<Event>)
    requires Inv(s) && CompletionsInv(s) && Execute(s, schedule).Some?
    ensures CompletionsInv(Execute(s, schedule).value)
    decreases |schedule|
  {
    hide Inv, CompletionsInv, Next;
    if schedule != [] {
      StepKeepsInv(s, schedule[0].agent, schedule[0].step);
      StepKeepsCompletions(s, schedule[0].agent, schedule[0].step);
      EveryScheduleKeepsCompletions(Next(s, schedule[0].agent, schedule[0].step).value, schedule[1..]);
    }
  }

  lemma ReachableCompletionsAreBacked(s: State)
    requires Reachable(s)
    ensures CompletionsInv(s)
  {
    var start, schedule :| Init(start) && Execute(start, schedule) == Some(s);
    InitHolds(start);
    EveryScheduleKeepsCompletions(start, schedule);
  }

  /** A repository state in which a record's completion was taken, from its run's outcome or from its pinned Result. */
  ghost predicate TakenFrom(s: State, r: Record, git: Git, before: Context, head: Context) {
    || (exists f :: FromOutcome(s, r, f) && f.git == git && f.before == before && f.head == head)
    || (FromPin(s, r) && s.pins[r.runId.value].capture.git == git && s.pins[r.runId.value].before == before
        && s.pins[r.runId.value].capture.head == head)
  }

  /**
   Every completion commit in every reachable ledger belongs to a success of a run that exited zero, and when that
   run took it, it was the clean HEAD of the same repository, in original history, strictly after the package base.
   */
  lemma CompletionIsAStrictDescendant(s: State, r: Record) returns (git: Git, before: Context, head: Context)
    requires Reachable(s) && r in s.ledger && r.completedCommit.Some?
    ensures r.status == Some(Succeeded) && r.manifest.Some? && r.runId.Some? && r.runId.value in s.exitedZero
    ensures TakenFrom(s, r, git, before, head)
    ensures MatchesContext(r.manifest.value, before) && before.repoId == head.repoId
    ensures before.repositoryPath == head.repositoryPath
    ensures r.completedCommit == Some(head.baseCommit) && !head.dirty && git.original && ValidGit(git)
    ensures head.baseCommit != r.manifest.value.baseCommit
    ensures Reaches(git.history, head.baseCommit, r.manifest.value.baseCommit)
  {
    hide Reachable, Inv, CompletionsInv, RecordFor, MatchesContext, CompletedCommit, FromPin, FromOutcome, TakenFrom;
    ReachableStatesAreSafe(s);
    ReachableCompletionsAreBacked(s);
    SuccessfulRecord(s, r);
    if FromPin(s, r) {
      git, before, head := PinProves(s, r);
    } else {
      var f :| FromOutcome(s, r, f);
      git, before, head := OutcomeProves(s, r, f);
    }
    SameRepository(r.manifest.value, git, before, head, r.completedCommit.value);
    CompletionIsACleanStrictDescendant(git, before, head, r.completedCommit.value);
  }

  lemma SuccessfulRecord(s: State, r: Record)
    requires Reachable(s) && Inv(s) && CompletionsInv(s) && r in s.ledger && r.completedCommit.Some?
    ensures RecordFor(s.ledger, r.identity) == Some(r) && r.status == Some(Succeeded) && r.manifest.Some?
    ensures Backed(s, r) && r.runId.Some? && r.runId.value in s.exitedZero
  {
    RecordForFinds(s.ledger, r.identity);
    SuccessMeansExitZero(s, r);
  }

  /** What a clean forward move says about the two contexts. */
  lemma SameRepository(selection: Selection, git: Git, before: Context, head: Context, c: CommitId)
    requires ValidGit(git) && MatchesContext(selection, before) && CompletedCommit(git, before, head) == Ok(Some(c))
    ensures before.repoId == head.repoId && before.baseCommit == selection.baseCommit
  {
    hide Ancestor;
  }

  lemma OutcomeProves(s: State, r: Record, f: CompletionFact) returns (git: Git, before: Context, head: Context)
    requires CompletionsInv(s) && FromOutcome(s, r, f) && r.manifest.Some?
    ensures TakenFrom(s, r, git, before, head) && ValidGit(git) && MatchesContext(r.manifest.value, before)
    ensures CompletedCommit(git, before, head) == Ok(r.completedCommit)
  {
    git, before, head := f.git, f.before, f.head;
    assert Proven(f);
  }

  lemma PinProves(s: State, r: Record) returns (git: Git, before: Context, head: Context)
    requires Inv(s) && FromPin(s, r) && r.completedCommit.Some? && r.manifest.Some?
    ensures TakenFrom(s, r, git, before, head) && ValidGit(git) && MatchesContext(r.manifest.value, before)
    ensures CompletedCommit(git, before, head) == Ok(r.completedCommit)
  {
    var fact := s.pins[r.runId.value];
    git, before, head := fact.capture.git, fact.before, fact.capture.head;
    assert s.captures[fact.capture.sha] == fact && FactHolds(s.meaning, fact);
  }
}
