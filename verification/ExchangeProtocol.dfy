/**
 The Exchange protocol as a state machine. Apply runs, recovery passes and archival passes are agents
 that interleave; users change files and repositories at any time; `Stop` ends an agent between any
 two of its steps and releases its lock, so it is both a crash and an orderly end.

 A digest stands for the bytes it was computed from (`meaning` never changes for a known digest).
 Temporary Result files carry a name every scan skips, so they are not part of `files`.
 */
module ExchangeProtocol {
  import opened Prelude
  import opened Bindings
  import opened ArchiveGit
  import opened ExchangeLedger

  type AgentId = string

  /** What the complete bytes behind a digest prove; unusable content proves nothing. */
  datatype Content = Proves(evidence: Evidence) | Unusable

  datatype Repository = Repository(git: Git, context: Context, lock: Option<AgentId>)

  /** How a package was chosen: by the watcher, by a manual request, or by an explicit path. */
  datatype Mode = Automatic | Manual(retryFailed: bool) | Explicit

  datatype Stage = Discovered | Locked | Recorded | Writing | Exited | Captured | Pinned | Published | Settled

  /** The Result bytes of one run before publication, and the repository they were taken from. */
  datatype Capture = Capture(sha: string, git: Git, head: Context, completed: Option<CommitId>)

  datatype ApplyRun = ApplyRun(
    identity: Identity, selection: Selection, mode: Mode, stage: Stage,
    before: Option<Context>, exitZero: bool, capture: Option<Capture>)

  datatype PassStage = Scanning | Loaded | Proving(context: Context)

  datatype Agent =
    | Applying(run: ApplyRun)
    | Recovering(repoId: string, scanned: set<Identity>, pass: PassStage, pending: set<Record>)
    | Archiving(repoId: string, scanned: set<Identity>, pass: PassStage, pinned: set<string>)
    | Holding(repoId: string)

  /** Which run captured a Result, for what, and from which repository state. */
  datatype CaptureFact = CaptureFact(
    runId: AgentId, identity: Identity, selection: Selection, before: Context, capture: Capture)

  /** A completion commit recorded with an ordinary outcome, and the repository state it was taken from. */
  datatype CompletionFact = CompletionFact(
    runId: AgentId, identity: Identity, selection: Selection, before: Context, git: Git, head: Context,
    commit: CommitId)

  datatype Entry = Entry(identity: Identity, runId: AgentId)

  datatype State = State(
    ledger: seq<Record>, files: map<string, string>, meaning: map<string, Content>,
    repos: map<string, Repository>, agents: map<AgentId, Agent>,
    // history, never read by a step's guard except to choose fresh run IDs
    used: set<AgentId>, seen: set<string>, exitedZero: set<AgentId>,
    captures: map<string, CaptureFact>, pins: map<AgentId, CaptureFact>, autoStarts: set<Entry>, autoWrites: set<Entry>,
    completions: set<CompletionFact>)

  function HeldRepo(agent: Agent): Option<string> {
    match agent
    case Applying(run) => if run.stage == Discovered then None else Some(run.selection.repoId)
    case Recovering(repoId, _, pass, _) => if pass.Proving? then Some(repoId) else None
    case Archiving(repoId, _, pass, _) => if pass.Proving? then Some(repoId) else None
    case Holding(repoId) => Some(repoId)
  }

  predicate Present(s: State, id: Identity) { id.path in s.files && s.files[id.path] == id.sha256 }

  predicate IsFree(s: State, repoId: string) { repoId in s.repos && s.repos[repoId].lock.None? }

  function WithAgent(s: State, a: AgentId, agent: Agent): State { s.(agents := s.agents[a := agent]) }

  function WithLock(s: State, repoId: string, holder: Option<AgentId>): State
    requires repoId in s.repos
  {
    s.(repos := s.repos[repoId := s.repos[repoId].(lock := holder)])
  }

  function RunOf(s: State, a: AgentId): Option<ApplyRun> {
    if a in s.agents && s.agents[a].Applying? then Some(s.agents[a].run) else None
  }

  // ---------------------------------------------------------------- Apply steps

  function BeginApply(s: State, a: AgentId, id: Identity, selection: Selection, mode: Mode): Option<State> {
    if a in s.used || !IsCanonicalUuid4(a) then None
    else Some(WithAgent(s, a, Applying(ApplyRun(id, selection, mode, Discovered, None, false, None)))
                .(used := s.used + {a}))
  }

  /** Take the repository lock, capture the state and require the manifest's exact binding. */
  function LockForApply(s: State, a: AgentId): Option<State> {
    var run := RunOf(s, a);
    if run.None? || run.value.stage != Discovered || !IsFree(s, run.value.selection.repoId) then None
    else
      var context := s.repos[run.value.selection.repoId].context;
      if !MatchesContext(run.value.selection, context) then None
      else Some(WithLock(WithAgent(s, a, Applying(run.value.(stage := Locked, before := Some(context)))),
                         run.value.selection.repoId, Some(a)))
  }

  function StartOp(run: ApplyRun, a: AgentId): Op {
    Start(run.identity, run.selection, run.mode.Manual? && run.mode.retryFailed, run.mode.Explicit?, Some(a))
  }

  /** Recheck the repository and the file, then record the attempt. */
  function RecordAttempt(s: State, a: AgentId): Option<State> {
    var run := RunOf(s, a);
    if run.None? || run.value.stage != Locked || run.value.selection.repoId !in s.repos then None
    else if Some(s.repos[run.value.selection.repoId].context) != run.value.before then None
    else if !Present(s, run.value.identity) then None
    else
      match Apply(s.ledger, StartOp(run.value, a))
      case Err(_) => None
      case Ok(next) =>
        Some(WithAgent(s, a, Applying(run.value.(stage := Recorded)))
               .(ledger := next,
                 autoStarts := s.autoStarts + if run.value.mode.Automatic? then {Entry(run.value.identity, a)} else {}))
  }

  function EnterWrites(s: State, a: AgentId): Option<State> {
    var run := RunOf(s, a);
    if run.None? || run.value.stage != Recorded then None
    else Some(WithAgent(s, a, Applying(run.value.(stage := Writing)))
                .(autoWrites := s.autoWrites + if run.value.mode.Automatic?
                    then {Entry(run.value.identity, a)} else {}))
  }

  /** The entrypoint ended, or payload writing failed before it (`exitZero` false). */
  function EndEntrypoint(s: State, a: AgentId, exitZero: bool): Option<State> {
    var run := RunOf(s, a);
    if run.None? || run.value.stage != Writing then None
    else Some(WithAgent(s, a, Applying(run.value.(stage := Exited, exitZero := exitZero)))
                .(exitedZero := s.exitedZero + if exitZero then {a} else {}))
  }

  ghost function Completion(s: State, run: ApplyRun): Option<CommitId>
    requires run.before.Some? && run.selection.repoId in s.repos && ValidGit(s.repos[run.selection.repoId].git)
  {
    var repo := s.repos[run.selection.repoId];
    if !run.exitZero then None
    else match CompletedCommit(repo.git, run.before.value, repo.context)
         case Err(_) => None
         case Ok(commit) => commit
  }

  function BindingOf(c: Context): Selection { Selection(c.repoId, c.baseCommit, c.fingerprint, c.algorithm) }

  /** A Result of a clean success without warnings is evidence; any other Result is not. */
  function ResultContent(
      run: ApplyRun, a: AgentId, git: Git, head: Context, completed: Option<CommitId>, warned: bool): Content
  {
    if !run.exitZero || head.dirty || warned || head.baseCommit !in git.history then Unusable
    else Proves(Evidence(ResultBundle, BindingOf(head), git.history[head.baseCommit].tree,
                         if completed.Some? then Some(Receipt(run.identity.sha256, a, run.selection, completed.value))
                           else None))
  }

  /** Write and verify the temporary Result. Its bytes name this run, so its digest is new. */
  ghost function CaptureResult(s: State, a: AgentId, sha: string, warned: bool): Option<State> {
    var run := RunOf(s, a);
    if run.None? || run.value.stage != Exited || run.value.before.None? || run.value.selection.repoId !in s.repos
       || !ValidGit(s.repos[run.value.selection.repoId].git) || sha in s.meaning || sha in s.seen
            || !IsSha256(sha) then None
    else
      var repo := s.repos[run.value.selection.repoId];
      var completed := Completion(s, run.value);
      Some(WithAgent(s, a,
            Applying(run.value.(stage := Captured, capture := Some(Capture(sha, repo.git, repo.context, completed)))))
             .(meaning := s.meaning[sha := ResultContent(run.value, a, repo.git, repo.context, completed, warned)],
               captures := s.captures[sha := CaptureFact(a, run.value.identity, run.value.selection,
                     run.value.before.value,
                                                    Capture(sha, repo.git, repo.context, completed))]))
  }

  /** Record the digest of the verified temporary Result, only when there is a completion commit. */
  function PinResult(s: State, a: AgentId): Option<State> {
    var run := RunOf(s, a);
    if run.None? || run.value.stage != Captured || run.value.before.None? || run.value.capture.None?
       || run.value.capture.value.completed.None? then None
    else
      var r := run.value;
      match Apply(s.ledger, Pin(r.identity, r.selection, a, r.capture.value.sha))
      case Err(_) => None
      case Ok(next) =>
        Some(WithAgent(s, a, Applying(r.(stage := Pinned)))
               .(ledger := next,
                   pins := s.pins[a := CaptureFact(a, r.identity, r.selection, r.before.value, r.capture.value)]))
  }

  /** Rename the temporary Result into place; the destination must be absent. */
  function PublishResult(s: State, a: AgentId, path: string): Option<State> {
    var run := RunOf(s, a);
    if run.None? || run.value.capture.None? || path in s.files then None
    else if !(run.value.stage == Pinned || (run.value.stage == Captured && run.value.capture.value.completed.None?))
      then None
    else
      var sha := run.value.capture.value.sha;
      Some(WithAgent(s, a, Applying(run.value.(stage := Published))).(files := s.files[path := sha],
            seen := s.seen + {sha}))
  }

  ghost function OutcomeOp(s: State, run: ApplyRun, a: AgentId): Op
    requires run.before.Some? && run.selection.repoId in s.repos && ValidGit(s.repos[run.selection.repoId].git)
  {
    Finish(run.identity, run.selection, if run.exitZero then Succeeded else Failed, Completion(s, run), Some(a))
  }

  ghost function NewCompletion(s: State, run: ApplyRun, a: AgentId): set<CompletionFact>
    requires run.before.Some? && run.selection.repoId in s.repos && ValidGit(s.repos[run.selection.repoId].git)
  {
    var repo, commit := s.repos[run.selection.repoId], Completion(s, run);
    if commit.None? then {}
    else {CompletionFact(a, run.identity, run.selection, run.before.value, repo.git, repo.context, commit.value)}
  }

  /** Record the terminal outcome; a failed Result publication does not prevent it. */
  ghost function RecordOutcome(s: State, a: AgentId): Option<State> {
    var run := RunOf(s, a);
    if run.None? || run.value.stage !in {Exited, Captured, Pinned, Published} || run.value.before.None?
       || run.value.selection.repoId !in s.repos || !ValidGit(s.repos[run.value.selection.repoId].git) then None
    else
      match Apply(s.ledger, OutcomeOp(s, run.value, a))
      case Err(_) => None
      case Ok(next) =>
        Some(WithAgent(s, a, Applying(run.value.(stage := Settled)))
               .(ledger := next, completions := s.completions + NewCompletion(s, run.value, a)))
  }

  /** The agent disappears and its lock is released. */
  function Stop(s: State, a: AgentId): Option<State> {
    if a !in s.agents then None
    else
      var held := HeldRepo(s.agents[a]);
      var released := if held.Some? && held.value in s.repos then WithLock(s, held.value, None) else s;
      Some(released.(agents := s.agents - {a}))
  }

  // ---------------------------------------------------------------- maintenance steps

  predicate FreshClassification(s: State, r: Record) { RecordValid(r) && r.status.None? }

  /** Any scan publishes new classifications. */
  function MergeScan(s: State, candidates: seq<Record>): Option<State> {
    if exists i | 0 <= i < |candidates| :: !FreshClassification(s, candidates[i]) then None
    else match Apply(s.ledger, Merge(candidates))
         case Err(_) => None
         case Ok(next) => Some(s.(ledger := next))
  }

  function BeginPass(s: State, a: AgentId, agent: Agent): Option<State> {
    if a in s.used then None
    else if agent.Holding? then
      if !IsFree(s, agent.repoId) then None
      else Some(WithLock(WithAgent(s, a, agent).(used := s.used + {a}), agent.repoId, Some(a)))
    else if agent.Applying? || agent.scanned != {} || agent.pass != Scanning then None
    else Some(WithAgent(s, a, agent).(used := s.used + {a}))
  }

  /** Files are read one at a time, so a scan is not a snapshot. */
  function ScanFile(s: State, a: AgentId, path: string): Option<State> {
    if a !in s.agents || path !in s.files then None
    else
      var id := Identity(path, s.files[path]);
      match s.agents[a]
      case Recovering(q, scanned, Scanning, p) => Some(WithAgent(s, a, Recovering(q, scanned + {id}, Scanning, p)))
      case Archiving(q, scanned, Scanning, p) => Some(WithAgent(s, a, Archiving(q, scanned + {id}, Scanning, p)))
      case _ => None
  }

  predicate IsPinnedAttempt(r: Record) { r.status == Some(Attempted) && r.runId.Some? && r.resultSha.Some? }

  /** Read the ledger once; the lists made here may be stale when they are used. */
  function LoadPending(s: State, a: AgentId): Option<State> {
    if a !in s.agents then None
    else
      match s.agents[a]
      case Recovering(q, scanned, Scanning, _) =>
        Some(WithAgent(s, a, Recovering(q, scanned, Loaded,
          set r | r in s.ledger && IsPinnedAttempt(r) && r.manifest.Some? && r.manifest.value.repoId == q)))
      case Archiving(q, scanned, Scanning, _) =>
        Some(WithAgent(s, a, Archiving(q, scanned, Loaded,
          set r | r in s.ledger && r.status == Some(Attempted) && r.resultSha.Some? :: r.resultSha.value)))
      case _ => None
  }

  function LockForPass(s: State, a: AgentId): Option<State> {
    if a !in s.agents then None
    else
      match s.agents[a]
      case Recovering(q, scanned, Loaded, p) =>
        if !IsFree(s, q) then None
        else Some(WithLock(WithAgent(s, a, Recovering(q, scanned, Proving(s.repos[q].context), p)), q, Some(a)))
      case Archiving(q, scanned, Loaded, p) =>
        if !IsFree(s, q) then None
        else Some(WithLock(WithAgent(s, a, Archiving(q, scanned, Proving(s.repos[q].context), p)), q, Some(a)))
      case _ => None
  }

  function UnlockPass(s: State, a: AgentId): Option<State> {
    if a !in s.agents then None
    else
      match s.agents[a]
      case Recovering(q, scanned, Proving(_), p) =>
        if q !in s.repos then None else Some(WithLock(WithAgent(s, a, Recovering(q, scanned, Loaded, p)), q, None))
      case Archiving(q, scanned, Proving(_), p) =>
        if q !in s.repos then None else Some(WithLock(WithAgent(s, a, Archiving(q, scanned, Loaded, p)), q, None))
      case _ => None
  }

  predicate MatchesReceipt(r: Record, evidence: Evidence) {
    && evidence.receipt.Some?
    && evidence.receipt.value.patchSha == r.identity.sha256
    && Some(evidence.receipt.value.expected) == r.manifest
    && Some(evidence.receipt.value.runId) == r.runId
    && evidence.receipt.value.completedCommit == evidence.selection.baseCommit
  }

  ghost predicate ProvenResult(r: Record, evidence: Evidence, git: Git, context: Context)
    requires ValidGit(git)
  {
    && MatchesReceipt(r, evidence) && r.manifest.Some?
    && ProvenResultState(git, evidence, context) == Ok(true)
    && Ancestor(git, r.manifest.value.baseCommit, evidence.receipt.value.completedCommit) == Ok(true)
  }

  /** Everything recovery rechecks, while it holds the repository lock, before it swaps the record. */
  ghost predicate RecoveryProof(s: State, agent: Agent, r: Record, result: Identity) {
    && agent.Recovering? && agent.pass.Proving? && r in agent.pending
    && r.identity in agent.scanned && result in agent.scanned && r.resultSha == Some(result.sha256)
    && Present(s, r.identity) && Present(s, result)
    && agent.repoId in s.repos && ValidGit(s.repos[agent.repoId].git)
    && s.repos[agent.repoId].context == agent.pass.context
    && r.identity.sha256 in s.meaning && s.meaning[r.identity.sha256].Proves?
    && s.meaning[r.identity.sha256].evidence.kind == PatchPackage
    && Some(s.meaning[r.identity.sha256].evidence.selection) == r.manifest
    && result.sha256 in s.meaning && s.meaning[result.sha256].Proves?
    && ProvenResult(r, s.meaning[result.sha256].evidence, s.repos[agent.repoId].git, agent.pass.context)
  }

  ghost function RecoverAttempt(s: State, a: AgentId, r: Record, result: Identity): Option<State> {
    if a !in s.agents || !RecoveryProof(s, s.agents[a], r, result) then None
    else
      match Apply(s.ledger, Recover(r, s.meaning[result.sha256].evidence.receipt.value.completedCommit))
      case Err(_) => None
      case Ok(next) => Some(s.(ledger := next))
  }

  ghost predicate ArchiveProof(s: State, agent: Agent, id: Identity) {
    && agent.Archiving? && agent.pass.Proving? && id in agent.scanned && id.sha256 !in agent.pinned
    && Present(s, id) && id.sha256 in s.meaning && s.meaning[id.sha256].Proves?
    && s.meaning[id.sha256].evidence.selection.repoId == agent.repoId
    && agent.repoId in s.repos && ValidGit(s.repos[agent.repoId].git)
    && s.repos[agent.repoId].context == agent.pass.context
    && ProvenObsolete(s.repos[agent.repoId].git, s.meaning[id.sha256].evidence, agent.pass.context,
           RecordFor(s.ledger, id)) == Ok(true)
  }

  ghost function ArchiveMove(s: State, a: AgentId, id: Identity): Option<State> {
    if a !in s.agents || !ArchiveProof(s, s.agents[a], id) then None
    else Some(s.(files := s.files - {id.path}))
  }

  // ---------------------------------------------------------------- the outside world

  /** Bytes of a Result that is captured but neither pinned nor published exist nowhere else. */
  ghost predicate IsPrivate(s: State, sha: string) {
    exists a :: a in s.agents && RunOf(s, a).Some? && RunOf(s, a).value.stage == Captured
                && RunOf(s, a).value.capture.Some? && RunOf(s, a).value.capture.value.sha == sha
  }

  ghost function UserPut(s: State, path: string, sha: string, content: Content): Option<State> {
    if IsPrivate(s, sha) then None
    else Some(s.(files := s.files[path := sha], seen := s.seen + {sha},
                 meaning := if sha in s.meaning then s.meaning else s.meaning[sha := content]))
  }

  function UserRemove(s: State, path: string): Option<State> { Some(s.(files := s.files - {path})) }

  /** Commits, edits, rewrites or pruning by anyone, at any time, lock or no lock. */
  ghost function RepositoryChange(s: State, repoId: string, git: Git, context: Context): Option<State> {
    if repoId !in s.repos || !ValidGit(git) || context.repoId != repoId then None
    else Some(s.(repos := s.repos[repoId := s.repos[repoId].(git := git, context := context)]))
  }

  datatype Step =
    | ABegin(id: Identity, selection: Selection, mode: Mode) | ALock | ARecord | AWrite | AExit(exitZero: bool)
    | ACapture(sha: string, warned: bool) | APin | APublish(path: string) | AOutcome | AStop
    | PBegin(agent: Agent) | PScan(path: string) | PMerge(candidates: seq<Record>) | PLoad | PLock | PUnlock
    | PRecover(r: Record, result: Identity) | PArchive(id: Identity)
    | UPut(path: string, sha: string, content: Content) | URemove(path: string)
    | URepository(repoId: string, git: Git, context: Context)

  /** One step of agent `a` (the outside world's steps ignore it). */
  ghost function Next(s: State, a: AgentId, step: Step): Option<State> {
    match step
    case ABegin(id, selection, mode) => BeginApply(s, a, id, selection, mode)
    case ALock => LockForApply(s, a)
    case ARecord => RecordAttempt(s, a)
    case AWrite => EnterWrites(s, a)
    case AExit(exitZero) => EndEntrypoint(s, a, exitZero)
    case ACapture(sha, warned) => CaptureResult(s, a, sha, warned)
    case APin => PinResult(s, a)
    case APublish(path) => PublishResult(s, a, path)
    case AOutcome => RecordOutcome(s, a)
    case AStop => Stop(s, a)
    case PBegin(agent) => BeginPass(s, a, agent)
    case PScan(path) => ScanFile(s, a, path)
    case PMerge(candidates) => MergeScan(s, candidates)
    case PLoad => LoadPending(s, a)
    case PLock => LockForPass(s, a)
    case PUnlock => UnlockPass(s, a)
    case PRecover(r, result) => RecoverAttempt(s, a, r, result)
    case PArchive(id) => ArchiveMove(s, a, id)
    case UPut(path, sha, content) => UserPut(s, path, sha, content)
    case URemove(path) => UserRemove(s, path)
    case URepository(repoId, git, context) => RepositoryChange(s, repoId, git, context)
  }

  /** An empty ledger, no agents, unlocked repositories, arbitrary files. */
  ghost predicate Init(s: State) {
    && s.ledger == [] && s.agents == map[] && s.used == {} && s.exitedZero == {} && s.captures == map[]
    && s.pins == map[]
    && s.autoStarts == {} && s.autoWrites == {} && s.completions == {} && s.seen == s.files.Values
    && forall q | q in s.repos :: s.repos[q].lock.None? && ValidGit(s.repos[q].git) && s.repos[q].context.repoId == q
  }

  datatype Event = Event(agent: AgentId, step: Step)

  /** The state a schedule leads to, if every one of its steps is enabled. */
  ghost function Execute(s: State, schedule: seq<Event>): Option<State>
    decreases |schedule|
  {
    if schedule == [] then Some(s)
    else match Next(s, schedule[0].agent, schedule[0].step)
         case None => None
         case Some(next) => Execute(next, schedule[1..])
  }
}
