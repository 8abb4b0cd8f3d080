/**
 What the protocol's history fields say about the events of a schedule: who was started, who exited zero, and who
 entered the payload-write phase. With it the main results read as statements about schedules alone.
 */
module ExchangeEvents {
  import opened Prelude
  import opened Bindings
  import opened ArchiveGit
  import opened ExchangeLedger
  import opened ExchangeProtocol
  import opened ExchangeInvariant
  import opened ExchangeTheorems
  import opened ExchangeSchedules

  predicate SameTask(run: ApplyRun, later: ApplyRun) {
    later.identity == run.identity && later.selection == run.selection && later.mode == run.mode
  }

  /** A run keeps its task for as long as it lives, and only its first step gives it one. */
  ghost predicate TasksStay(s: State, t: State, a: AgentId, step: Step) {
    forall x | RunOf(t, x).Some? ::
      || (RunOf(s, x).Some? && SameTask(RunOf(s, x).value, RunOf(t, x).value))
      || (x == a && a !in s.used
          && step == ABegin(RunOf(t, x).value.identity, RunOf(t, x).value.selection, RunOf(t, x).value.mode))
  }

  /** How one step changes the history fields. */
  ghost predicate HistoryFollows(s: State, next: Option<State>, a: AgentId, step: Step) {
    next.Some? ==>
      var t := next.value;
      && t.used == s.used + (if step.ABegin? || step.PBegin? then {a} else {})
      && t.exitedZero == s.exitedZero + (if step == AExit(true) then {a} else {})
      && t.autoWrites == s.autoWrites
           + (if step.AWrite? && RunOf(s, a).Some? && RunOf(s, a).value.mode.Automatic?
              then {Entry(RunOf(s, a).value.identity, a)} else {})
      && TasksStay(s, t, a, step)
  }

  lemma BeginHistory(s: State, a: AgentId, id: Identity, selection: Selection, mode: Mode)
    ensures HistoryFollows(s, BeginApply(s, a, id, selection, mode), a, ABegin(id, selection, mode))
  {
    hide IsCanonicalUuid4;
  }

  lemma LockHistory(s: State, a: AgentId)
    ensures HistoryFollows(s, LockForApply(s, a), a, ALock)
  {
    hide MatchesContext;
  }

  lemma RecordHistory(s: State, a: AgentId)
    ensures HistoryFollows(s, RecordAttempt(s, a), a, ARecord)
  {
    hide Apply, StartOp, Present;
  }

  lemma WriteHistory(s: State, a: AgentId)
    ensures HistoryFollows(s, EnterWrites(s, a), a, AWrite)
  {
  }

  lemma ExitHistory(s: State, a: AgentId, exitZero: bool)
    ensures HistoryFollows(s, EndEntrypoint(s, a, exitZero), a, AExit(exitZero))
  {
  }

  lemma CaptureHistory(s: State, a: AgentId, sha: string, warned: bool)
    ensures HistoryFollows(s, CaptureResult(s, a, sha, warned), a, ACapture(sha, warned))
  {
    hide Completion, ResultContent, ValidGit, IsSha256;
  }

  lemma PinHistory(s: State, a: AgentId)
    ensures HistoryFollows(s, PinResult(s, a), a, APin)
  {
    hide Apply;
  }

  lemma PublishHistory(s: State, a: AgentId, path: string)
    ensures HistoryFollows(s, PublishResult(s, a, path), a, APublish(path))
  {
  }

  lemma OutcomeHistory(s: State, a: AgentId)
    ensures HistoryFollows(s, RecordOutcome(s, a), a, AOutcome)
  {
    hide Apply, OutcomeOp, NewCompletion, ValidGit;
  }

  lemma StopHistory(s: State, a: AgentId)
    ensures HistoryFollows(s, Stop(s, a), a, AStop)
  {
    hide HeldRepo;
  }

  lemma BeginPassHistory(s: State, a: AgentId, agent: Agent)
    ensures HistoryFollows(s, BeginPass(s, a, agent), a, PBegin(agent))
  {
  }

  lemma ScanHistory(s: State, a: AgentId, path: string)
    ensures HistoryFollows(s, ScanFile(s, a, path), a, PScan(path))
  {
  }

  lemma LoadHistory(s: State, a: AgentId)
    ensures HistoryFollows(s, LoadPending(s, a), a, PLoad)
  {
    hide TasksStay, LoadPending;
    var next := LoadPending(s, a);
    if next.Some? {
      LoadShape(s, a, next.value);
      PassKeepsTasks(s, next.value, a, PLoad);
    }
  }

  lemma LoadShape(s: State, a: AgentId, t: State)
    requires LoadPending(s, a) == Some(t)
    ensures a in t.agents && !t.agents[a].Applying? && t == s.(agents := s.agents[a := t.agents[a]])
  {
    hide IsPinnedAttempt;
  }

  /** A step that gives a pass a new list leaves all runs alone. */
  lemma PassKeepsTasks(s: State, t: State, a: AgentId, step: Step)
    requires a in t.agents && !t.agents[a].Applying?
    requires forall x | x in t.agents && x != a :: x in s.agents && t.agents[x] == s.agents[x]
    ensures TasksStay(s, t, a, step)
  {
  }

  lemma PassLockHistory(s: State, a: AgentId)
    ensures HistoryFollows(s, LockForPass(s, a), a, PLock)
  {
    hide TasksStay;
    var next := LockForPass(s, a);
    if next.Some? { PassKeepsTasks(s, next.value, a, PLock); }
  }

  lemma PassUnlockHistory(s: State, a: AgentId)
    ensures HistoryFollows(s, UnlockPass(s, a), a, PUnlock)
  {
    hide TasksStay;
    var next := UnlockPass(s, a);
    if next.Some? { PassKeepsTasks(s, next.value, a, PUnlock); }
  }

  lemma PassEffectHistory(s: State, a: AgentId, r: Record, result: Identity, candidates: seq<Record>)
    ensures HistoryFollows(s, RecoverAttempt(s, a, r, result), a, PRecover(r, result))
    ensures HistoryFollows(s, ArchiveMove(s, a, result), a, PArchive(result))
    ensures HistoryFollows(s, MergeScan(s, candidates), a, PMerge(candidates))
  {
    hide Apply, RecoveryProof, ArchiveProof, FreshClassification;
  }

  lemma PutHistory(s: State, a: AgentId, path: string, sha: string, content: Content)
    ensures HistoryFollows(s, UserPut(s, path, sha, content), a, UPut(path, sha, content))
  {
    hide IsPrivate;
  }

  lemma RemoveHistory(s: State, a: AgentId, path: string)
    ensures HistoryFollows(s, UserRemove(s, path), a, URemove(path))
  {
  }

  lemma ChangeHistory(s: State, a: AgentId, repoId: string, git: Git, context: Context)
    ensures HistoryFollows(s, RepositoryChange(s, repoId, git, context), a, URepository(repoId, git, context))
  {
    hide ValidGit;
  }

  /** Every step: runs start once, exits and writes are recorded as they happen, and tasks never change. */
  lemma StepHistory(s: State, a: AgentId, step: Step)
    ensures HistoryFollows(s, Next(s, a, step), a, step)
  {
    hide BeginApply, LockForApply, RecordAttempt, EnterWrites, EndEntrypoint, PinResult, PublishResult, RecordOutcome;
    hide Stop, HistoryFollows, CaptureResult, UserPut, RepositoryChange;
    hide BeginPass, ScanFile, MergeScan, LoadPending, LockForPass, UnlockPass, RecoverAttempt, ArchiveMove, UserRemove;
    var none := Record(Identity("", ""), Other, None, None, None, None, None);
    match step
    case ABegin(id, selection, mode) => BeginHistory(s, a, id, selection, mode);
    case ALock => LockHistory(s, a);
    case ARecord => RecordHistory(s, a);
    case AWrite => WriteHistory(s, a);
    case AExit(exitZero) => ExitHistory(s, a, exitZero);
    case ACapture(sha, warned) => CaptureHistory(s, a, sha, warned);
    case APin => PinHistory(s, a);
    case APublish(path) => PublishHistory(s, a, path);
    case AOutcome => OutcomeHistory(s, a);
    case AStop => StopHistory(s, a);
    case PBegin(agent) => BeginPassHistory(s, a, agent);
    case PScan(path) => ScanHistory(s, a, path);
    case PMerge(candidates) => PassEffectHistory(s, a, none, none.identity, candidates);
    case PLoad => LoadHistory(s, a);
    case PLock => PassLockHistory(s, a);
    case PUnlock => PassUnlockHistory(s, a);
    case PRecover(record, result) => PassEffectHistory(s, a, record, result, []);
    case PArchive(id) => PassEffectHistory(s, a, none, id, []);
    case UPut(path, sha, content) => PutHistory(s, a, path, sha, content);
    case URemove(path) => RemoveHistory(s, a, path);
    case URepository(repoId, git, context) => ChangeHistory(s, a, repoId, git, context);
  }

  // ---------------------------------------------------------------- whole schedules

  lemma StartIsReachable(start: State)
    requires Init(start)
    ensures Reachable(start)
  {
    assert Execute(start, []) == Some(start);
  }

  /** The states before and after event `i` of a schedule from the start, and how that event changed the history. */
  lemma EventHappened(start: State, schedule: seq<Event>, i: nat) returns (before: State, after: State)
    requires Init(start) && Execute(start, schedule).Some? && i < |schedule|
    ensures Execute(start, schedule[..i]) == Some(before) && Execute(start, schedule[..i + 1]) == Some(after)
    ensures Inv(before) && Next(before, schedule[i].agent, schedule[i].step) == Some(after)
    ensures HistoryFollows(before, Some(after), schedule[i].agent, schedule[i].step)
  {
    hide Init, Next, Reachable, Inv, HistoryFollows;
    StartIsReachable(start);
    before, after := EventWasEnabled(start, schedule, i);
    ReachableStatesAreSafe(before);
    StepHistory(before, schedule[i].agent, schedule[i].step);
  }

  ghost predicate NoForgetting(s: State, t: State) {
    s.used <= t.used && s.exitedZero <= t.exitedZero && s.autoWrites <= t.autoWrites
  }

  /** From one position of a schedule to a later one the history only grows, and a named run keeps its task. */
  lemma {:induction false} HistoryStays(start: State, schedule: seq<Event>, n: nat, m: nat, x: AgentId, run: ApplyRun)
    requires Init(start) && Execute(start, schedule).Some? && n <= m <= |schedule|
    ensures Execute(start, schedule[..n]).Some? && Execute(start, schedule[..m]).Some?
    ensures NoForgetting(Execute(start, schedule[..n]).value, Execute(start, schedule[..m]).value)
    ensures TaskOf(Execute(start, schedule[..n]).value, x, run) ==> TaskOf(Execute(start, schedule[..m]).value, x, run)
    decreases m
  {
    hide Init, Next, Inv, Execute, SameTask, HistoryFollows;
    if n < m {
      var before, after := EventHappened(start, schedule, m - 1);
      HistoryStays(start, schedule, n, m - 1, x, run);
      TaskStays(before, after, schedule[m - 1].agent, schedule[m - 1].step, x, run);
    } else if m > 0 {
      var before, after := EventHappened(start, schedule, m - 1);
    } else {
      NothingDone(start, schedule);
    }
  }

  lemma NothingDone(start: State, schedule: seq<Event>)
    ensures Execute(start, schedule[..0]) == Some(start)
  {
  }

  /** `x` was started, and if its run is alive it is for the same identity, selection and mode as `run`. */
  predicate TaskOf(s: State, x: AgentId, run: ApplyRun) {
    x in s.used && (RunOf(s, x).Some? ==> SameTask(run, RunOf(s, x).value))
  }

  lemma TaskStays(s: State, t: State, a: AgentId, step: Step, x: AgentId, run: ApplyRun)
    requires HistoryFollows(s, Some(t), a, step)
    ensures NoForgetting(s, t) && (TaskOf(s, x, run) ==> TaskOf(t, x, run))
  {
  }

  lemma WritersAreStarted(s: State, x: AgentId, t: State)
    requires Inv(s) && Next(s, x, AWrite) == Some(t)
    ensures RunOf(s, x).Some? && x in s.used
  {
  }

  lemma StartersAreNew(s: State, x: AgentId, id: Identity, selection: Selection, mode: Mode, t: State)
    requires Next(s, x, ABegin(id, selection, mode)) == Some(t)
    ensures x !in s.used && x in t.used && RunOf(t, x).Some?
    ensures RunOf(t, x).value.identity == id && RunOf(t, x).value.mode == mode
  {
  }

  /** A run that is started automatically for an identity and enters the write phase is recorded as such. */
  lemma WriteIsEntered(
      start: State, schedule: seq<Event>, s: State, x: AgentId, id: Identity, selection: Selection, i: nat, k: nat)
    requires Init(start) && Execute(start, schedule) == Some(s) && i < |schedule| && k < |schedule|
    requires schedule[i] == Event(x, ABegin(id, selection, Automatic)) && schedule[k] == Event(x, AWrite)
    ensures Entry(id, x) in s.autoWrites
  {
    hide Init, Next, Inv, Execute;
    var begin, begun := EventHappened(start, schedule, i);
    var before, after := EventHappened(start, schedule, k);
    StartersAreNew(begin, x, id, selection, Automatic, begun);
    WritersAreStarted(before, x, after);
    var run := RunOf(begun, x).value;
    if k < i {
      HistoryStays(start, schedule, k, i, x, run);
      assert false;
    }
    HistoryStays(start, schedule, i + 1, k, x, run);
    HistoryStays(start, schedule, k + 1, |schedule|, x, run);
    assert schedule[..|schedule|] == schedule;
  }

  /**
   In every schedule from the start: of all runs started automatically for one identity, at most one ever enters the
   payload-write phase, whatever crashes, recoveries and archivals happen around them.
   */
  lemma OneAutomaticRunWrites(
      start: State, schedule: seq<Event>, id: Identity, x: AgentId, y: AgentId, first: Selection, second: Selection)
    requires Init(start) && Execute(start, schedule).Some?
    requires Event(x, ABegin(id, first, Automatic)) in schedule && Event(x, AWrite) in schedule
    requires Event(y, ABegin(id, second, Automatic)) in schedule && Event(y, AWrite) in schedule
    ensures x == y
  {
    hide Init, Next, Inv;
    var s := Execute(start, schedule).value;
    var i :| 0 <= i < |schedule| && schedule[i] == Event(x, ABegin(id, first, Automatic));
    var k :| 0 <= k < |schedule| && schedule[k] == Event(x, AWrite);
    WriteIsEntered(start, schedule, s, x, id, first, i, k);
    var j :| 0 <= j < |schedule| && schedule[j] == Event(y, ABegin(id, second, Automatic));
    var l :| 0 <= l < |schedule| && schedule[l] == Event(y, AWrite);
    WriteIsEntered(start, schedule, s, y, id, second, j, l);
    assert Reachable(s);
    AtMostOneAutomaticMutation(s, id, x, y);
  }

  /** Whoever is recorded as having exited zero did so in an event of the schedule. */
  lemma {:induction false} ExitIsAnEvent(start: State, schedule: seq<Event>, m: nat, x: AgentId)
    requires Init(start) && Execute(start, schedule).Some? && m <= |schedule|
    ensures Execute(start, schedule[..m]).Some?
    ensures x in Execute(start, schedule[..m]).value.exitedZero ==> Event(x, AExit(true)) in schedule[..m]
    decreases m
  {
    hide Init, Next, Inv, Execute, TasksStay;
    if m == 0 {
      NothingDone(start, schedule);
      NobodyExited(start);
    } else {
      var before, after := EventHappened(start, schedule, m - 1);
      ExitIsAnEvent(start, schedule, m - 1, x);
      assert schedule[..m] == schedule[..m - 1] + [schedule[m - 1]];
    }
  }

  lemma NobodyExited(start: State)
    requires Init(start)
    ensures start.exitedZero == {} && start.captures == map[]
  {
  }

  /** Every success that names a run goes back to the event in which that run's entrypoint exited zero. */
  lemma SuccessHasItsExit(start: State, schedule: seq<Event>, s: State, r: Record)
    requires Init(start) && Execute(start, schedule) == Some(s)
    requires r in s.ledger && r.status == Some(Succeeded) && r.runId.Some?
    ensures Event(r.runId.value, AExit(true)) in schedule
  {
    hide Init, Next;
    assert Reachable(s);
    hide Execute;
    SuccessMeansExitZero(s, r);
    ExitIsAnEvent(start, schedule, |schedule|, r.runId.value);
    assert schedule[..|schedule|] == schedule;
  }

  // ---------------------------------------------------------------- captured Results

  /** Bytes that prove something say what the repository was: a clean HEAD and its tree, after an exit with zero. */
  predicate IsCleanResult(exitedZero: set<AgentId>, fact: CaptureFact, content: Content) {
    content.Proves? ==>
      var head, evidence := fact.capture.head, content.evidence;
      && fact.runId in exitedZero && !head.dirty && evidence.kind == ResultBundle
      && evidence.selection == Selection(head.repoId, head.baseCommit, head.fingerprint, head.algorithm)
      && head.baseCommit in fact.capture.git.history
      && evidence.baseEntries == fact.capture.git.history[head.baseCommit].tree
  }

  /** A captured digest was captured before, with the meaning it has, or by this very step. */
  ghost predicate CaptureGoesBack(s: State, a: AgentId, step: Step, t: State, sha: string) {
    sha in t.captures ==>
      && sha in t.meaning
      && (|| (sha in s.captures && sha in s.meaning && t.captures[sha] == s.captures[sha]
              && t.meaning[sha] == s.meaning[sha])
          || (t.captures[sha].runId == a && IsCleanResult(s.exitedZero, t.captures[sha], t.meaning[sha])
              && exists warned :: step == ACapture(sha, warned) && (t.meaning[sha].Proves? ==> !warned)))
  }

  lemma CaptureStepGoesBack(s: State, a: AgentId, digest: string, warned: bool, t: State, sha: string)
    requires Inv(s) && CaptureResult(s, a, digest, warned) == Some(t)
    ensures CaptureGoesBack(s, a, ACapture(digest, warned), t, sha)
  {
    hide CaptureResult, FactHolds, Completion, Core, ReposValid, LedgerValid;
    CaptureEffect(s, t, a, digest, warned);
    CapturedRunExited(s, a);
    if sha == digest { assert ACapture(digest, warned) == ACapture(sha, warned); }
  }

  lemma CapturedRunExited(s: State, a: AgentId)
    requires Inv(s) && RunOf(s, a).Some?
    ensures RunOf(s, a).value.exitZero ==> a in s.exitedZero
  {
    hide RecordFor, OwnedRecord, FactsInv, ReposValid, LedgerValid;
    assert RunInv(s, a, RunOf(s, a).value);
  }

  lemma OtherStepGoesBack(s: State, a: AgentId, step: Step, t: State, sha: string)
    requires FactsInv(s.meaning, s.captures) && ReposValid(s.repos)
    requires !step.ACapture? && Next(s, a, step) == Some(t)
    ensures CaptureGoesBack(s, a, step, t, sha)
  {
    hide FactHolds;
    if step.UPut? {
      PutIsTheStep(s, a, step);
      hide Next, UserPut;
      PutAddsMeaning(s, step.path, step.sha, step.content);
    } else if step.URepository? {
      ChangeIsTheStep(s, a, step);
      hide Next, RepositoryChange;
      RepositoryChangeIsValid(s, step.repoId, step.git, step.context);
    } else {
      hide Next;
      StepFrame(s, a, step);
    }
  }

  lemma PutIsTheStep(s: State, a: AgentId, step: Step)
    requires step.UPut?
    ensures Next(s, a, step) == UserPut(s, step.path, step.sha, step.content)
  {
    hide UserPut;
  }

  lemma ChangeIsTheStep(s: State, a: AgentId, step: Step)
    requires step.URepository?
    ensures Next(s, a, step) == RepositoryChange(s, step.repoId, step.git, step.context)
  {
    hide RepositoryChange;
  }

  lemma CapturesGoBack(s: State, a: AgentId, step: Step, t: State, sha: string)
    requires Inv(s) && Next(s, a, step) == Some(t)
    ensures CaptureGoesBack(s, a, step, t, sha)
  {
    hide Core, CaptureGoesBack, FactsInv, ReposValid;
    if step.ACapture? {
      CaptureIsTheStep(s, a, step);
      hide Next;
      CaptureStepGoesBack(s, a, step.sha, step.warned, t, sha);
    } else {
      hide Next;
      OtherStepGoesBack(s, a, step, t, sha);
    }
  }

  /**
   Captured bytes that prove anything were captured without warnings, in an event of the schedule, by a run that had
   exited zero, from a clean HEAD.
   */
  lemma {:induction false} CaptureIsAnEvent(start: State, schedule: seq<Event>, m: nat, sha: string)
    requires Init(start) && Execute(start, schedule).Some? && m <= |schedule|
    ensures Execute(start, schedule[..m]).Some?
    ensures var s := Execute(start, schedule[..m]).value;
            sha in s.captures ==>
              && sha in s.meaning && IsCleanResult(s.exitedZero, s.captures[sha], s.meaning[sha])
              && (s.meaning[sha].Proves? ==> Event(s.captures[sha].runId, ACapture(sha, false)) in schedule[..m])
    decreases m
  {
    hide Init, Next, Inv, Execute, TasksStay;
    if m == 0 {
      NothingDone(start, schedule);
      NobodyExited(start);
    } else {
      var before, after := EventHappened(start, schedule, m - 1);
      CaptureIsAnEvent(start, schedule, m - 1, sha);
      CapturesGoBack(before, schedule[m - 1].agent, schedule[m - 1].step, after, sha);
      assert schedule[..m] == schedule[..m - 1] + [schedule[m - 1]];
    }
  }

  /** Recovery uses only Results whose run captured them in an event of the schedule, without warnings. */
  lemma RecoveredResultWasCaptured(
      start: State, schedule: seq<Event>, s: State, a: AgentId, r: Record, result: Identity)
    requires Init(start) && Execute(start, schedule) == Some(s) && RecoverAttempt(s, a, r, result).Some?
    ensures r.runId.Some? && Event(r.runId.value, ACapture(result.sha256, false)) in schedule
    ensures Event(r.runId.value, AExit(true)) in schedule
  {
    hide Init, Next, Inv, RecoverAttempt, HonestPin;
    assert Reachable(s);
    hide Execute, Reachable;
    ReachableStatesAreSafe(s);
    RecoveryIsScoped(s, a, r, result);
    RecoveryRechecks(s, a, r, result);
    PinIsACapture(s, r);
    CaptureIsAnEvent(start, schedule, |schedule|, result.sha256);
    ExitIsAnEvent(start, schedule, |schedule|, r.runId.value);
    assert schedule[..|schedule|] == schedule;
  }

  lemma PinIsACapture(s: State, r: Record)
    requires Inv(s) && HonestPin(s, r) && r.resultSha.Some?
    ensures r.runId.Some? && r.runId.value in s.exitedZero
    ensures r.resultSha.value in s.captures && s.captures[r.resultSha.value].runId == r.runId.value
  {
    hide RunsInv, PassesInv, RecordsBacked, AutoInv, FactsInv, LedgerValid, LocksAgree;
    assert s.captures[s.pins[r.runId.value].capture.sha] == s.pins[r.runId.value];
  }
}
