/** One automatic Apply run that nobody disturbs, from discovery to the recorded success. */
module ExchangeRun {
  import opened Prelude
  import opened Bindings
  import opened CommitGraph
  import opened ArchiveGit
  import opened ExchangeLedger
  import opened ExchangeProtocol
  import opened ExchangeInvariant
  import opened ExchangeSchedules
  import opened ExchangeTheorems
  import opened ExchangeCrashRecovery

  /** A classified, never attempted package for a free repository in exactly the state it was made for. */
  ghost predicate ReadyToApply(s: State, a: AgentId, id: Identity, selection: Selection) {
    && a !in s.used && IsCanonicalUuid4(a) && Present(s, id)
    && RecordFor(s.ledger, id) == Some(FreshRecord(id, selection))
    && IsFree(s, selection.repoId) && MatchesContext(selection, s.repos[selection.repoId].context)
  }

  function FreshRecord(id: Identity, selection: Selection): Record {
    Record(id, PatchPackage, Some(selection), None, None, None, None)
  }

  /** The record of a finished run: its commit, its id and the digest of its Result. */
  function SucceededRecord(id: Identity, selection: Selection, a: AgentId, capture: Capture): Record {
    Record(id, PatchPackage, Some(selection), Some(Succeeded), capture.completed, Some(a), Some(capture.sha))
  }

  /** The digest stands for a package with this binding. */
  predicate IsPackage(s: State, id: Identity, selection: Selection) {
    && id.sha256 in s.meaning && s.meaning[id.sha256].Proves?
    && s.meaning[id.sha256].evidence.kind == PatchPackage && s.meaning[id.sha256].evidence.selection == selection
  }

  /** What the entrypoint leaves behind: the same repository, cleanly moved to a strict descendant. */
  ghost predicate CommitsCleanly(git: Git, before: Context, after: Context) {
    ValidGit(git) && after.repoId == before.repoId && CompletedCommit(git, before, after) == Ok(Some(after.baseCommit))
  }

  /** Everything one run is about. */
  datatype Job = Job(
    a: AgentId, id: Identity, selection: Selection, context: Context, git: Git, after: Context, sha: string,
    path: string)

  function JobCapture(j: Job): Capture { Capture(j.sha, j.git, j.after, Some(j.after.baseCommit)) }

  /** The run of a job at one stage. */
  function RunAt(j: Job, stage: Stage): ApplyRun {
    ApplyRun(j.id, j.selection, Automatic, stage,
             if stage == Discovered then None else Some(j.context),
             stage in {Exited, Captured, Pinned, Published, Settled},
             if stage in {Captured, Pinned, Published, Settled} then Some(JobCapture(j)) else None)
  }

  predicate AtStage(s: State, j: Job, stage: Stage) { RunOf(s, j.a) == Some(RunAt(j, stage)) }

  predicate InRepository(s: State, j: Job, git: Git, context: Context) {
    && j.selection.repoId in s.repos
    && s.repos[j.selection.repoId].git == git && s.repos[j.selection.repoId].context == context
  }

  /** Files and digests are as before. */
  predicate SameFiles(s: State, t: State) { t.files == s.files && t.meaning == s.meaning && t.seen == s.seen }

  // ---------------------------------------------------------------- the schedule

  function BeginSchedule(j: Job): seq<Event> {
    [Event(j.a, ABegin(j.id, j.selection, Automatic))] + [Event(j.a, ALock)]
  }

  function WriteSchedule(j: Job): seq<Event> { [Event(j.a, ARecord)] + [Event(j.a, AWrite)] }

  /** The change of the repository is the entrypoint's own commit. */
  function ExitSchedule(j: Job): seq<Event> {
    [Event(j.a, URepository(j.selection.repoId, j.git, j.after))] + [Event(j.a, AExit(true))]
  }

  function ResultSchedule(j: Job): seq<Event> {
    [Event(j.a, ACapture(j.sha, false))] + ([Event(j.a, APin)] + [Event(j.a, APublish(j.path))])
  }

  /** Every event of the run up to the published Result; all of them are the run's own. */
  function UpToPublication(j: Job): seq<Event> {
    BeginSchedule(j) + (WriteSchedule(j) + (ExitSchedule(j) + ResultSchedule(j)))
  }

  function EndSchedule(j: Job): seq<Event> { [Event(j.a, AOutcome)] + [Event(j.a, AStop)] }

  function UndisturbedSchedule(j: Job): seq<Event> { UpToPublication(j) + EndSchedule(j) }

  /** Written out. */
  lemma UndisturbedScheduleIs(j: Job)
    ensures UndisturbedSchedule(j) == [
              Event(j.a, ABegin(j.id, j.selection, Automatic)), Event(j.a, ALock), Event(j.a, ARecord),
              Event(j.a, AWrite),
              Event(j.a, URepository(j.selection.repoId, j.git, j.after)), Event(j.a, AExit(true)),
              Event(j.a, ACapture(j.sha, false)), Event(j.a, APin), Event(j.a, APublish(j.path)),
              Event(j.a, AOutcome), Event(j.a, AStop)]
  {
  }

  // ---------------------------------------------------------------- single steps

  lemma RunIsDiscovered(s: State, j: Job) returns (t: State)
    requires ReadyToApply(s, j.a, j.id, j.selection)
    ensures Next(s, j.a, ABegin(j.id, j.selection, Automatic)) == Some(t) && AtStage(t, j, Discovered)
    ensures SameFiles(s, t) && t.ledger == s.ledger && t.repos == s.repos && t.used == s.used + {j.a}
  {
    t := BeginApply(s, j.a, j.id, j.selection, Automatic).value;
  }

  lemma RepositoryIsLocked(s: State, j: Job) returns (t: State)
    requires AtStage(s, j, Discovered) && IsFree(s, j.selection.repoId)
    requires s.repos[j.selection.repoId].context == j.context && MatchesContext(j.selection, j.context)
    ensures Next(s, j.a, ALock) == Some(t) && AtStage(t, j, Locked)
    ensures SameFiles(s, t) && t.ledger == s.ledger && t.used == s.used
    ensures InRepository(t, j, s.repos[j.selection.repoId].git, j.context)
  {
    t := LockForApply(s, j.a).value;
  }

  lemma AttemptIsRecorded(s: State, j: Job) returns (t: State)
    requires IsCanonicalUuid4(j.a) && Present(s, j.id) && AtStage(s, j, Locked)
    requires j.selection.repoId in s.repos && s.repos[j.selection.repoId].context == j.context
    requires RecordFor(s.ledger, j.id) == Some(FreshRecord(j.id, j.selection))
    ensures Next(s, j.a, ARecord) == Some(t) && AtStage(t, j, Recorded)
    ensures SameFiles(s, t) && t.repos == s.repos && t.used == s.used
  {
    t := RecordAttempt(s, j.a).value;
  }

  lemma WritesAreEntered(s: State, j: Job) returns (t: State)
    requires AtStage(s, j, Recorded)
    ensures Next(s, j.a, AWrite) == Some(t) && AtStage(t, j, Writing)
    ensures SameFiles(s, t) && t.repos == s.repos && t.used == s.used
  {
    t := EnterWrites(s, j.a).value;
  }

  lemma EntrypointCommits(s: State, j: Job) returns (t: State)
    requires AtStage(s, j, Writing) && j.selection.repoId in s.repos
    requires ValidGit(j.git) && j.after.repoId == j.selection.repoId
    ensures Next(s, j.a, URepository(j.selection.repoId, j.git, j.after)) == Some(t) && AtStage(t, j, Writing)
    ensures SameFiles(s, t) && InRepository(t, j, j.git, j.after) && t.used == s.used
  {
    t := RepositoryChange(s, j.selection.repoId, j.git, j.after).value;
  }

  lemma EntrypointExits(s: State, j: Job) returns (t: State)
    requires AtStage(s, j, Writing)
    ensures Next(s, j.a, AExit(true)) == Some(t) && AtStage(t, j, Exited)
    ensures SameFiles(s, t) && t.repos == s.repos && t.used == s.used
  {
    t := EndEntrypoint(s, j.a, true).value;
  }

  /** The Result the run writes proves HEAD, with the receipt of this run. */
  function ResultEvidence(j: Job): Evidence
    requires j.after.baseCommit in j.git.history
  {
    Evidence(ResultBundle, BindingOf(j.after), j.git.history[j.after.baseCommit].tree,
             Some(Receipt(j.id.sha256, j.a, j.selection, j.after.baseCommit)))
  }

  lemma ResultIsCaptured(s: State, j: Job) returns (t: State)
    requires InRepository(s, j, j.git, j.after) && AtStage(s, j, Exited) && CommitsCleanly(j.git, j.context, j.after)
    requires j.sha !in s.meaning && j.sha !in s.seen && IsSha256(j.sha)
    ensures Next(s, j.a, ACapture(j.sha, false)) == Some(t) && AtStage(t, j, Captured)
    ensures t.files == s.files && t.seen == s.seen && t.repos == s.repos && t.used == s.used
    ensures j.after.baseCommit in j.git.history && t.meaning == s.meaning[j.sha := Proves(ResultEvidence(j))]
  {
    CompletionIsACleanStrictDescendant(j.git, j.context, j.after, j.after.baseCommit);
    ReachedIsKnownAndNotHigher(j.git.history, j.after.baseCommit, j.context.baseCommit);
    HeadIsKnown(j.git.history, j.after.baseCommit, j.context.baseCommit);
    t := CaptureResult(s, j.a, j.sha, false).value;
  }

  lemma JobIsPinned(s: State, j: Job, t: State)
    requires AtStage(s, j, Captured) && PinResult(s, j.a) == Some(t)
    ensures AtStage(t, j, Pinned) && SameFiles(s, t) && t.repos == s.repos && t.used == s.used
  {
  }

  lemma ResultIsPinned(s: State, j: Job) returns (t: State)
    requires Reachable(s) && AtStage(s, j, Captured)
    ensures Next(s, j.a, APin) == Some(t) && AtStage(t, j, Pinned)
    ensures SameFiles(s, t) && t.repos == s.repos && t.used == s.used
  {
    hide Reachable;
    OwnerIsNeverRefused(s, j.a);
    hide PinResult, RecordOutcome;
    t := PinResult(s, j.a).value;
    JobIsPinned(s, j, t);
  }

  lemma ResultIsPublished(s: State, j: Job) returns (t: State)
    requires AtStage(s, j, Pinned) && j.path !in s.files
    ensures Next(s, j.a, APublish(j.path)) == Some(t) && AtStage(t, j, Published)
    ensures t.files == s.files[j.path := j.sha] && t.meaning == s.meaning && t.repos == s.repos && t.used == s.used
  {
    t := PublishResult(s, j.a, j.path).value;
  }

  lemma OutcomeOpOfJob(s: State, j: Job)
    requires InRepository(s, j, j.git, j.after) && CommitsCleanly(j.git, j.context, j.after)
    ensures OutcomeOp(s, RunAt(j, Published), j.a)
              == Finish(j.id, j.selection, Succeeded, Some(j.after.baseCommit), Some(j.a))
  {
    hide CompletedCommit;
  }

  lemma OutcomeWrites(s: State, a: AgentId, run: ApplyRun, t: State)
    requires RunOf(s, a) == Some(run) && run.before.Some? && run.selection.repoId in s.repos
    requires ValidGit(s.repos[run.selection.repoId].git) && RecordOutcome(s, a) == Some(t)
    ensures Apply(s.ledger, OutcomeOp(s, run, a)) == Ok(t.ledger)
    ensures t.files == s.files && RunOf(t, a) == Some(run.(stage := Settled))
  {
    hide Apply, OutcomeOp;
  }

  lemma OutcomeEffect(s: State, j: Job, t: State)
    requires Inv(s) && RecordOutcome(s, j.a) == Some(t) && AtStage(s, j, Published)
    requires InRepository(s, j, j.git, j.after) && CommitsCleanly(j.git, j.context, j.after)
    ensures RecordFor(t.ledger, j.id) == Some(SucceededRecord(j.id, j.selection, j.a, JobCapture(j)))
    ensures t.files == s.files && AtStage(t, j, Settled)
  {
    hide RecordOutcome, RecordFor, Apply, OutcomeOp, CompletedCommit, Core, LedgerValid;
    PublishedRunOwns(s, j.a, RunAt(j, Published));
    OutcomeWrites(s, j.a, RunAt(j, Published), t);
    OutcomeOpOfJob(s, j);
    FinishedRecord(s.ledger, j);
  }

  lemma FinishedRecord(ledger: seq<Record>, j: Job)
    requires LedgerValid(ledger) && RecordFor(ledger, j.id) == Some(OwnedRecord(j.a, RunAt(j, Published)))
    ensures var op := Finish(j.id, j.selection, Succeeded, Some(j.after.baseCommit), Some(j.a));
            Apply(ledger, op).Ok? ==>
              RecordFor(Apply(ledger, op).value, j.id) == Some(SucceededRecord(j.id, j.selection, j.a, JobCapture(j)))
  {
    var op := Finish(j.id, j.selection, Succeeded, Some(j.after.baseCommit), Some(j.a));
    if Apply(ledger, op).Ok? { LifecycleEffect(ledger, op); }
  }

  lemma OutcomeIsRecorded(s: State, j: Job) returns (t: State)
    requires Reachable(s) && AtStage(s, j, Published)
    requires InRepository(s, j, j.git, j.after) && CommitsCleanly(j.git, j.context, j.after)
    ensures Next(s, j.a, AOutcome) == Some(t) && t.files == s.files && AtStage(t, j, Settled)
    ensures RecordFor(t.ledger, j.id) == Some(SucceededRecord(j.id, j.selection, j.a, JobCapture(j)))
  {
    hide Reachable, Inv, CompletedCommit;
    ReachableStatesAreSafe(s);
    OwnerIsNeverRefused(s, j.a);
    hide PinResult, RecordOutcome;
    t := RecordOutcome(s, j.a).value;
    OutcomeEffect(s, j, t);
  }

  lemma StopReleases(s: State, a: AgentId, run: ApplyRun) returns (t: State)
    requires LocksAgree(s.agents, s.repos) && RunOf(s, a) == Some(run) && run.stage != Discovered
    ensures Stop(s, a) == Some(t) && t.ledger == s.ledger && t.files == s.files && IsFree(t, run.selection.repoId)
  {
    t := Stop(s, a).value;
    assert HeldRepo(s.agents[a]) == Some(run.selection.repoId);
  }

  lemma RunStops(s: State, j: Job) returns (t: State)
    requires Inv(s) && AtStage(s, j, Settled)
    ensures Next(s, j.a, AStop) == Some(t) && t.ledger == s.ledger && t.files == s.files
            && IsFree(t, j.selection.repoId)
  {
    hide Stop, LocksAgree, Inv, IsFree;
    LocksOfInv(s);
    t := StopReleases(s, j.a, RunAt(j, Settled));
  }

  lemma LocksOfInv(s: State)
    requires Inv(s)
    ensures LocksAgree(s.agents, s.repos)
  {
    hide LocksAgree, RunsInv, PassesInv, RecordsBacked, PinsInv, AutoInv, FactsInv, LedgerValid, ReposValid;
  }

  // ---------------------------------------------------------------- parts of the schedule

  lemma RunBegins(s: State, j: Job) returns (t: State)
    requires Reachable(s) && ReadyToApply(s, j.a, j.id, j.selection) && j.context == s.repos[j.selection.repoId].context
    ensures Execute(s, BeginSchedule(j)) == Some(t) && Reachable(t) && AtStage(t, j, Locked)
    ensures SameFiles(s, t) && t.ledger == s.ledger && t.used == s.used + {j.a}
    ensures InRepository(t, j, s.repos[j.selection.repoId].git, j.context)
  {
    hide Reachable, Next;
    var u := RunIsDiscovered(s, j);
    StepTaken(s, j.a, ABegin(j.id, j.selection, Automatic), u);
    t := RepositoryIsLocked(u, j);
    StepTaken(u, j.a, ALock, t);
    TwoSteps(s, j.a, ABegin(j.id, j.selection, Automatic), u, ALock, t);
  }

  lemma RunWrites(s: State, j: Job) returns (t: State)
    requires Reachable(s) && IsCanonicalUuid4(j.a) && Present(s, j.id) && AtStage(s, j, Locked)
    requires j.selection.repoId in s.repos && s.repos[j.selection.repoId].context == j.context
    requires RecordFor(s.ledger, j.id) == Some(FreshRecord(j.id, j.selection))
    ensures Execute(s, WriteSchedule(j)) == Some(t) && Reachable(t) && AtStage(t, j, Writing)
    ensures SameFiles(s, t) && t.repos == s.repos && t.used == s.used
  {
    hide Reachable, Next;
    var u := AttemptIsRecorded(s, j);
    StepTaken(s, j.a, ARecord, u);
    t := WritesAreEntered(u, j);
    StepTaken(u, j.a, AWrite, t);
    TwoSteps(s, j.a, ARecord, u, AWrite, t);
  }

  lemma RunExits(s: State, j: Job) returns (t: State)
    requires Reachable(s) && AtStage(s, j, Writing) && j.selection.repoId in s.repos
    requires ValidGit(j.git) && j.after.repoId == j.selection.repoId
    ensures Execute(s, ExitSchedule(j)) == Some(t) && Reachable(t) && AtStage(t, j, Exited)
    ensures SameFiles(s, t) && InRepository(t, j, j.git, j.after) && t.used == s.used
  {
    hide Reachable, Next;
    var change := URepository(j.selection.repoId, j.git, j.after);
    var u := EntrypointCommits(s, j);
    StepTaken(s, j.a, change, u);
    t := EntrypointExits(u, j);
    StepTaken(u, j.a, AExit(true), t);
    TwoSteps(s, j.a, change, u, AExit(true), t);
  }

  lemma RunPublishes(s: State, j: Job) returns (t: State)
    requires Reachable(s) && InRepository(s, j, j.git, j.after) && AtStage(s, j, Exited)
    requires CommitsCleanly(j.git, j.context, j.after)
    requires j.sha !in s.meaning && j.sha !in s.seen && IsSha256(j.sha) && j.path !in s.files
    ensures Execute(s, ResultSchedule(j)) == Some(t) && Reachable(t) && AtStage(t, j, Published)
    ensures t.files == s.files[j.path := j.sha] && InRepository(t, j, j.git, j.after) && t.used == s.used
    ensures j.after.baseCommit in j.git.history && t.meaning == s.meaning[j.sha := Proves(ResultEvidence(j))]
  {
    hide Reachable, Next, CommitsCleanly;
    var u := ResultIsCaptured(s, j);
    StepTaken(s, j.a, ACapture(j.sha, false), u);
    var v := ResultIsPinned(u, j);
    StepTaken(u, j.a, APin, v);
    t := ResultIsPublished(v, j);
    StepTaken(v, j.a, APublish(j.path), t);
    TwoSteps(u, j.a, APin, v, APublish(j.path), t);
    TwoParts(s, [Event(j.a, ACapture(j.sha, false))], u, [Event(j.a, APin)] + [Event(j.a, APublish(j.path))], t);
  }

  lemma RunSettles(s: State, j: Job) returns (t: State)
    requires Reachable(s) && AtStage(s, j, Published)
    requires InRepository(s, j, j.git, j.after) && CommitsCleanly(j.git, j.context, j.after)
    ensures Execute(s, EndSchedule(j)) == Some(t) && t.files == s.files && IsFree(t, j.selection.repoId)
    ensures RecordFor(t.ledger, j.id) == Some(SucceededRecord(j.id, j.selection, j.a, JobCapture(j)))
  {
    hide Reachable, Next, CommitsCleanly, Inv;
    var u := OutcomeIsRecorded(s, j);
    StepTaken(s, j.a, AOutcome, u);
    ReachableStatesAreSafe(u);
    t := RunStops(u, j);
    StepTaken(u, j.a, AStop, t);
    TwoSteps(s, j.a, AOutcome, u, AStop, t);
  }

  // ---------------------------------------------------------------- the whole run

  /** The job meets its state: a ready package, a clean commit to come, an unused digest and destination. */
  ghost predicate JobReady(s: State, j: Job) {
    && ReadyToApply(s, j.a, j.id, j.selection) && j.context == s.repos[j.selection.repoId].context
    && CommitsCleanly(j.git, j.context, j.after)
    && j.sha !in s.meaning && j.sha !in s.seen && IsSha256(j.sha) && j.path !in s.files
  }

  /** From a ready package to the published Result. */
  lemma RunReachesPublication(s: State, j: Job) returns (t: State)
    requires Reachable(s) && JobReady(s, j)
    ensures Execute(s, UpToPublication(j)) == Some(t) && Reachable(t) && AtStage(t, j, Published)
    ensures t.files == s.files[j.path := j.sha] && InRepository(t, j, j.git, j.after) && t.used == s.used + {j.a}
    ensures j.after.baseCommit in j.git.history && t.meaning == s.meaning[j.sha := Proves(ResultEvidence(j))]
  {
    hide Reachable, CommitsCleanly;
    var s1 := RunBegins(s, j);
    var s2 := RunWrites(s1, j);
    CommitsCleanlyMeans(j);
    var s3 := RunExits(s2, j);
    t := RunPublishes(s3, j);
    TwoParts(s2, ExitSchedule(j), s3, ResultSchedule(j), t);
    TwoParts(s1, WriteSchedule(j), s2, ExitSchedule(j) + ResultSchedule(j), t);
    TwoParts(s, BeginSchedule(j), s1, WriteSchedule(j) + (ExitSchedule(j) + ResultSchedule(j)), t);
  }

  lemma CommitsCleanlyMeans(j: Job)
    requires CommitsCleanly(j.git, j.context, j.after)
    ensures ValidGit(j.git) && j.after.repoId == j.context.repoId && !j.after.dirty && j.git.original
    ensures j.after.baseCommit in j.git.history && Reaches(j.git.history, j.after.baseCommit, j.context.baseCommit)
  {
    CompletionIsACleanStrictDescendant(j.git, j.context, j.after, j.after.baseCommit);
    HeadIsKnown(j.git.history, j.after.baseCommit, j.context.baseCommit);
  }

  /**
   From every reachable state where a package is ready, an undisturbed run whose entrypoint commits
   cleanly ends with the Result published, its digest pinned, the success recorded with the new commit,
   and the lock released.
   */
  lemma UndisturbedRunSucceeds(s: State, j: Job) returns (t: State)
    requires Reachable(s) && JobReady(s, j)
    ensures Execute(s, UndisturbedSchedule(j)) == Some(t)
    ensures t.files == s.files[j.path := j.sha] && IsFree(t, j.selection.repoId)
    ensures RecordFor(t.ledger, j.id) == Some(SucceededRecord(j.id, j.selection, j.a, JobCapture(j)))
  {
    hide Reachable, CommitsCleanly;
    var p := RunReachesPublication(s, j);
    t := RunSettles(p, j);
    TwoParts(s, UpToPublication(j), p, EndSchedule(j), t);
  }

  /** The job meets its state, except that no scan has listed the package yet. */
  ghost predicate NewPackage(s: State, j: Job) {
    && RecordFor(s.ledger, j.id).None? && JobReady(s.(ledger := s.ledger + [FreshRecord(j.id, j.selection)]), j)
  }

  lemma ScanListsThePackage(s: State, j: Job, b: AgentId) returns (t: State)
    requires NewPackage(s, j)
    ensures Next(s, b, PMerge([FreshRecord(j.id, j.selection)])) == Some(t) && JobReady(t, j)
    ensures t == s.(ledger := s.ledger + [FreshRecord(j.id, j.selection)])
  {
    hide CommitsCleanly;
    var first := FreshRecord(j.id, j.selection);
    t := s.(ledger := s.ledger + [first]);
    assert [first][1..] == [];
    assert MergeCandidates(s.ledger + [first], []) == Ok(s.ledger + [first]);
  }

  /**
   From every reachable state, the very first one included, with a new package for a free repository: a scan and one
   undisturbed run end with the Result published and the success recorded.
   */
  lemma NewPackageIsApplied(s: State, j: Job, b: AgentId) returns (t: State)
    requires Reachable(s) && NewPackage(s, j)
    ensures Execute(s, [Event(b, PMerge([FreshRecord(j.id, j.selection)]))] + UndisturbedSchedule(j)) == Some(t)
    ensures t.files == s.files[j.path := j.sha] && IsFree(t, j.selection.repoId)
    ensures RecordFor(t.ledger, j.id) == Some(SucceededRecord(j.id, j.selection, j.a, JobCapture(j)))
  {
    hide Reachable, JobReady, NewPackage, Next, UndisturbedSchedule, SucceededRecord;
    var scan := PMerge([FreshRecord(j.id, j.selection)]);
    var u := ScanListsThePackage(s, j, b);
    StepTaken(s, b, scan, u);
    t := UndisturbedRunSucceeds(u, j);
    TwoParts(s, [Event(b, scan)], u, UndisturbedSchedule(j), t);
  }

  /** A published run of a package is one the crash theorem speaks about. */
  lemma PublicationIsIntact(s: State, j: Job, p: State)
    requires JobReady(s, j) && IsPackage(s, j.id, j.selection)
    requires AtStage(p, j, Published) && p.files == s.files[j.path := j.sha] && InRepository(p, j, j.git, j.after)
    requires j.after.baseCommit in j.git.history && p.meaning == s.meaning[j.sha := Proves(ResultEvidence(j))]
    ensures PublishedAndIntact(p, j.a, Identity(j.path, j.sha))
  {
    hide CommitsCleanly;
    CommitsCleanlyMeans(j);
  }

  /**
   The same run with a crash right after its Result is published, and one recovery pass by a fresh agent:
   the ledger ends with the same record as after the undisturbed run.
   */
  lemma CrashedRunIsRecovered(s: State, j: Job, b: AgentId) returns (w: State)
    requires Reachable(s) && JobReady(s, j) && IsPackage(s, j.id, j.selection) && b !in s.used && b != j.a
    ensures Execute(s, UpToPublication(j) + CrashAndRecover(j.a, RunAt(j, Published), b, Identity(j.path, j.sha)))
              == Some(w)
    ensures RecordFor(w.ledger, j.id) == Some(SucceededRecord(j.id, j.selection, j.a, JobCapture(j)))
  {
    hide Reachable, CommitsCleanly, PublishedAndIntact;
    var result := Identity(j.path, j.sha);
    var p := RunReachesPublication(s, j);
    PublicationIsIntact(s, j, p);
    w := CrashAfterPublicationRecovers(p, j.a, b, result);
    TwoParts(s, UpToPublication(j), p, CrashAndRecover(j.a, RunAt(j, Published), b, result), w);
  }
}
