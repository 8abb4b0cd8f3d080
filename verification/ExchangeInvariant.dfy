/** The invariant of the Exchange protocol, kept by every step. */
module ExchangeInvariant {
  import opened Prelude
  import opened Bindings
  import opened ArchiveGit
  import opened ExchangeLedger
  import opened ExchangeProtocol

  type Agents = map<AgentId, Agent>

  ghost predicate ReposValid(repos: map<string, Repository>) {
    forall q | q in repos :: ValidGit(repos[q].git) && repos[q].context.repoId == q
  }

  /** A capture with a completion commit is a clean strict descendant, and its bytes, if usable, say exactly that. */
  ghost predicate FactHolds(meaning: map<string, Content>, f: CaptureFact) {
    && IsSha256(f.capture.sha)
    && (f.capture.completed.Some? ==>
          && ValidGit(f.capture.git)
          && MatchesContext(f.selection, f.before)
          && CompletedCommit(f.capture.git, f.before, f.capture.head) == Ok(f.capture.completed)
          && f.capture.sha in meaning
          && (meaning[f.capture.sha].Proves? ==>
                && f.capture.completed.value in f.capture.git.history
                && meaning[f.capture.sha].evidence == Evidence(ResultBundle, BindingOf(f.capture.head),
                     f.capture.git.history[f.capture.completed.value].tree,
                     Some(Receipt(f.identity.sha256, f.runId, f.selection, f.capture.completed.value)))))
  }

  ghost predicate FactsInv(meaning: map<string, Content>, captures: map<string, CaptureFact>) {
    && captures.Keys <= meaning.Keys
    && forall sha | sha in captures :: captures[sha].capture.sha == sha && FactHolds(meaning, captures[sha])
  }

  /** Whoever is at a stage that needs a repository lock has it; so no two agents do. */
  ghost predicate LocksAgree(agents: Agents, repos: map<string, Repository>) {
    forall a | a in agents && HeldRepo(agents[a]).Some? ::
      HeldRepo(agents[a]).value in repos && repos[HeldRepo(agents[a]).value].lock == Some(a)
  }

  ghost predicate NamesUsed(s: State) {
    && s.agents.Keys <= s.used && s.pins.Keys <= s.used
    && (forall e | e in s.autoStarts :: e.runId in s.used)
    && (forall id :: RecordFor(s.ledger, id).Some? && RecordFor(s.ledger, id).value.runId.Some? ==>
          RecordFor(s.ledger, id).value.runId.value in s.used)
  }

  predicate InAttempt(stage: Stage) { stage in {Recorded, Writing, Exited, Captured, Pinned, Published} }

  predicate HasCapture(stage: Stage) { stage in {Captured, Pinned, Published} }

  predicate HasPinned(run: ApplyRun) {
    run.stage in {Pinned, Published} && run.capture.Some? && run.capture.value.completed.Some?
  }

  /** The record a live attempt owns, down to every field. */
  function OwnedRecord(a: AgentId, run: ApplyRun): Record {
    Record(run.identity, PatchPackage, Some(run.selection), Some(Attempted), None, Some(a),
           if HasPinned(run) then Some(run.capture.value.sha) else None)
  }

  ghost predicate RunInv(s: State, a: AgentId, run: ApplyRun) {
    && (run.stage != Discovered ==> run.before.Some? && MatchesContext(run.selection, run.before.value))
    && (InAttempt(run.stage) ==>
          && RecordFor(s.ledger, run.identity) == Some(OwnedRecord(a, run))
          && (run.mode.Automatic? ==> Entry(run.identity, a) in s.autoStarts))
    && (run.exitZero ==> a in s.exitedZero)
    && (HasCapture(run.stage) ==> run.capture.Some?)
    && (run.capture.Some? ==> HasCapture(run.stage) || run.stage == Settled)
    && (run.capture.Some? ==>
          && run.before.Some?
          && (run.capture.value.completed.Some? ==> run.exitZero)
          && run.capture.value.sha in s.captures
          && s.captures[run.capture.value.sha]
               == CaptureFact(a, run.identity, run.selection, run.before.value, run.capture.value))
    && (run.stage == Captured ==> run.capture.value.sha !in s.seen)
    && (run.stage == Pinned ==> run.capture.value.completed.Some?)
    && (a in s.pins ==> HasPinned(run) || run.stage == Settled)
    && (HasPinned(run) ==>
           a in s.pins && s.pins[a] == CaptureFact(a, run.identity, run.selection, run.before.value, run.capture.value))
  }

  ghost predicate RunsInv(s: State) {
    forall a | a in s.agents && s.agents[a].Applying? :: RunInv(s, a, s.agents[a].run)
  }

  ghost predicate PinsInv(s: State) {
    forall x | x in s.pins ::
      && x in s.exitedZero && s.pins[x].runId == x && s.pins[x].capture.completed.Some?
      && s.pins[x].capture.sha in s.captures && s.captures[s.pins[x].capture.sha] == s.pins[x]
  }

  predicate RecordBacked(s: State, r: Record) {
    && (r.resultSha.Some? ==>
          && r.runId.Some? && r.runId.value in s.pins
          && s.pins[r.runId.value].identity == r.identity && Some(s.pins[r.runId.value].selection) == r.manifest
          && s.pins[r.runId.value].capture.sha == r.resultSha.value)
    && (r.status == Some(Succeeded) && r.runId.Some? ==> r.runId.value in s.exitedZero)
  }

  /** Pinned digests and recorded successes go back to the run they name. */
  ghost predicate RecordsBacked(s: State) {
    forall id :: RecordFor(s.ledger, id).Some? ==>
      RecordFor(s.ledger, id).value.identity == id && RecordBacked(s, RecordFor(s.ledger, id).value)
  }

  predicate PinnedBy(r: Option<Record>, sha: string) {
    r.Some? && r.value.status == Some(Attempted) && r.value.resultSha == Some(sha)
  }

  ghost predicate NonePins(ledger: seq<Record>, sha: string) {
    forall id :: !PinnedBy(RecordFor(ledger, id), sha)
  }

  ghost predicate PassInv(ledger: seq<Record>, seen: set<string>, agent: Agent) {
    match agent
    case Recovering(q, scanned, pass, pending) =>
      && (forall id | id in scanned :: id.sha256 in seen)
      && (pass != Scanning ==>
             forall r | r in pending :: IsPinnedAttempt(r) && r.manifest.Some? && r.manifest.value.repoId == q)
    case Archiving(_, scanned, pass, pinned) =>
      && (forall id | id in scanned :: id.sha256 in seen)
      && (pass != Scanning ==> forall i | i in scanned && i.sha256 !in pinned :: NonePins(ledger, i.sha256))
    case _ => true
  }

  ghost predicate PassesInv(s: State) {
    forall a | a in s.agents :: PassInv(s.ledger, s.seen, s.agents[a])
  }

  ghost predicate FilesSeen(s: State) {
    forall p | p in s.files :: s.files[p] in s.seen
  }

  ghost predicate AutoInv(s: State) {
    && s.autoWrites <= s.autoStarts
    && (forall e, f | e in s.autoStarts && f in s.autoStarts && e.identity == f.identity :: e == f)
    && (forall e | e in s.autoStarts ::
           RecordFor(s.ledger, e.identity).Some? && RecordFor(s.ledger, e.identity).value.status.Some?)
  }

  ghost predicate Core(s: State) {
    && LocksAgree(s.agents, s.repos)
    && NamesUsed(s)
    && PinsInv(s)
    && RecordsBacked(s)
    && PassesInv(s)
    && FilesSeen(s)
    && AutoInv(s)
    && RunsInv(s)
  }

  ghost predicate Inv(s: State) {
    LedgerValid(s.ledger) && ReposValid(s.repos) && FactsInv(s.meaning, s.captures) && Core(s)
  }

  /** The invariant does not speak of recorded completions. */
  lemma CompletionsAreFree(s: State, completions: set<CompletionFact>)
    requires Core(s)
    ensures Core(s.(completions := completions))
  {
    var t := s.(completions := completions);
    forall a | a in s.agents && s.agents[a].Applying? ensures RunInv(t, a, s.agents[a].run) {
      assert RunInv(s, a, s.agents[a].run);
    }
    forall id | RecordFor(s.ledger, id).Some? ensures RecordBacked(t, RecordFor(s.ledger, id).value) {
      assert RecordBacked(s, RecordFor(s.ledger, id).value);
    }
    hide RunInv, RecordBacked, PassInv;
  }

  lemma InitHolds(s: State)
    requires Init(s)
    ensures Inv(s)
  {
  }

  // ---------------------------------------------------------------- framing

  ghost predicate SameOthers(s: State, t: State, a: AgentId) {
    forall b | b in t.agents && b != a :: b in s.agents && t.agents[b] == s.agents[b]
  }

  /** History only grows. */
  ghost predicate Grows(s: State, t: State) {
    && (forall sha | sha in s.captures :: sha in t.captures && t.captures[sha] == s.captures[sha])
    && (forall x | x in s.pins :: x in t.pins && t.pins[x] == s.pins[x])
    && s.exitedZero <= t.exitedZero && s.autoStarts <= t.autoStarts && s.seen <= t.seen && s.used <= t.used
  }

  /** The other runs keep their records and their private bytes. */
  ghost predicate OthersCarry(s: State, t: State, a: AgentId) {
    && (forall x | x in t.pins && x != a :: x in s.pins)
    && forall b | b in s.agents && b != a && s.agents[b].Applying? ::
      && (InAttempt(s.agents[b].run.stage) ==>
            RecordFor(t.ledger, s.agents[b].run.identity) == RecordFor(s.ledger, s.agents[b].run.identity))
      && (s.agents[b].run.stage == Captured && s.agents[b].run.capture.Some? ==>
             s.agents[b].run.capture.value.sha !in t.seen)
  }

  lemma OtherRunsKeep(s: State, t: State, a: AgentId)
    requires RunsInv(s) && SameOthers(s, t, a) && Grows(s, t) && OthersCarry(s, t, a)
    requires a in t.agents && t.agents[a].Applying? ==> RunInv(t, a, t.agents[a].run)
    ensures RunsInv(t)
  {
    forall b | b in t.agents && t.agents[b].Applying? ensures RunInv(t, b, t.agents[b].run) {
      if b != a { assert RunInv(s, b, s.agents[b].run); }
    }
  }

  /** For steps of `a` that leave the ledger, the pins and the automatic starts alone. */
  lemma CoreKeeps(s: State, t: State, a: AgentId)
    requires Core(s) && SameOthers(s, t, a) && Grows(s, t) && OthersCarry(s, t, a)
    requires t.ledger == s.ledger && t.pins == s.pins && t.autoStarts == s.autoStarts
    requires t.autoWrites <= t.autoStarts && t.agents.Keys <= t.used
    requires LocksAgree(t.agents, t.repos) && FilesSeen(t)
    requires a in t.agents ==> PassInv(t.ledger, t.seen, t.agents[a])
    requires a in t.agents && t.agents[a].Applying? ==> RunInv(t, a, t.agents[a].run)
    ensures Core(t)
  {
    OtherRunsKeep(s, t, a);
    forall b | b in t.agents ensures PassInv(t.ledger, t.seen, t.agents[b]) {
      if b != a { assert PassInv(s.ledger, s.seen, s.agents[b]); }
    }
  }

  /** The same for steps that also show no new digest: all that is left is the lock map and the agent itself. */
  lemma QuietKeeps(s: State, t: State, a: AgentId)
    requires Core(s) && SameOthers(s, t, a) && Grows(s, t)
    requires t.ledger == s.ledger && t.pins == s.pins && t.autoStarts == s.autoStarts && t.seen == s.seen
    requires t.autoWrites <= t.autoStarts && t.agents.Keys <= t.used
    requires LocksAgree(t.agents, t.repos) && FilesSeen(t)
    requires a in t.agents ==> PassInv(t.ledger, t.seen, t.agents[a])
    requires a in t.agents && t.agents[a].Applying? ==> RunInv(t, a, t.agents[a].run)
    ensures Core(t)
  {
    hide PassInv, FilesSeen, PinsInv, RecordsBacked, PassesInv, AutoInv, NamesUsed, OwnedRecord, LocksAgree;
    forall b | b in s.agents && b != a && s.agents[b].Applying? && s.agents[b].run.stage == Captured
      ensures s.agents[b].run.capture.Some? ==> s.agents[b].run.capture.value.sha !in t.seen
    {
      assert RunInv(s, b, s.agents[b].run);
    }
    CoreKeeps(s, t, a);
  }

  lemma CoreBounds(s: State)
    requires Core(s)
    ensures s.autoWrites <= s.autoStarts && s.agents.Keys <= s.used && s.pins.Keys <= s.used
    ensures LocksAgree(s.agents, s.repos) && FilesSeen(s) && RunsInv(s)
  {
  }

  lemma LockTaken(agents: Agents, repos: map<string, Repository>, a: AgentId, agent: Agent, q: string)
    requires LocksAgree(agents, repos) && q in repos && repos[q].lock.None? && HeldRepo(agent) == Some(q)
    ensures LocksAgree(agents[a := agent], repos[q := repos[q].(lock := Some(a))])
  {
  }

  lemma LockKept(agents: Agents, repos: map<string, Repository>, a: AgentId, agent: Agent)
    requires LocksAgree(agents, repos) && a in agents && HeldRepo(agent) == HeldRepo(agents[a])
    ensures LocksAgree(agents[a := agent], repos)
  {
  }

  lemma LockReleased(agents: Agents, repos: map<string, Repository>, a: AgentId, agent: Agent, q: string)
    requires LocksAgree(agents, repos) && q in repos && a in agents && HeldRepo(agents[a]) == Some(q)
             && HeldRepo(agent).None?
    ensures LocksAgree(agents[a := agent], repos[q := repos[q].(lock := None)])
  {
  }

  /** A maintenance pass changes nothing but its own list and a lock. */
  lemma PassMoves(s: State, a: AgentId, agent: Agent, repos: map<string, Repository>)
    requires Core(s) && a in s.agents && !s.agents[a].Applying? && !agent.Applying?
    requires LocksAgree(s.agents[a := agent], repos) && PassInv(s.ledger, s.seen, agent)
    ensures Core(s.(agents := s.agents[a := agent], repos := repos))
  {
    CoreKeeps(s, s.(agents := s.agents[a := agent], repos := repos), a);
  }

  lemma BeginKeeps(s: State, a: AgentId, id: Identity, selection: Selection, mode: Mode)
    requires Core(s) && BeginApply(s, a, id, selection, mode).Some?
    ensures Core(BeginApply(s, a, id, selection, mode).value)
  {
    hide Core, FactHolds, RecordFor;
    CoreBounds(s);
    QuietKeeps(s, BeginApply(s, a, id, selection, mode).value, a);
  }

  lemma LockKeeps(s: State, a: AgentId)
    requires Core(s) && LockForApply(s, a).Some?
    ensures Core(LockForApply(s, a).value)
  {
    hide Core, FactHolds, RecordFor;
    CoreBounds(s);
    var q := RunOf(s, a).value.selection.repoId;
    LockTaken(s.agents, s.repos, a, LockForApply(s, a).value.agents[a], q);
    QuietKeeps(s, LockForApply(s, a).value, a);
  }

  lemma WriteKeeps(s: State, a: AgentId)
    requires Core(s) && EnterWrites(s, a).Some?
    ensures Core(EnterWrites(s, a).value)
  {
    hide Core, FactHolds, RecordFor;
    CoreBounds(s);
    QuietKeeps(s, EnterWrites(s, a).value, a);
  }

  lemma ExitKeeps(s: State, a: AgentId, exitZero: bool)
    requires Core(s) && EndEntrypoint(s, a, exitZero).Some?
    ensures Core(EndEntrypoint(s, a, exitZero).value)
  {
    hide Core, FactHolds, RecordFor;
    CoreBounds(s);
    QuietKeeps(s, EndEntrypoint(s, a, exitZero).value, a);
  }

  lemma CaptureKeeps(s: State, a: AgentId, sha: string, warned: bool)
    requires Core(s) && FactsInv(s.meaning, s.captures) && CaptureResult(s, a, sha, warned).Some?
    ensures Core(CaptureResult(s, a, sha, warned).value)
  {
    var run := RunOf(s, a).value;
    var repo := s.repos[run.selection.repoId];
    var completed := Completion(s, run);
    CapturedRunKeeps(s, a, Capture(sha, repo.git, repo.context, completed),
                     ResultContent(run, a, repo.git, repo.context, completed, warned));
  }

  lemma CapturedRunKeeps(s: State, a: AgentId, capture: Capture, content: Content)
    requires Core(s) && RunOf(s, a).Some? && RunOf(s, a).value.stage == Exited
    requires capture.sha !in s.captures && capture.sha !in s.seen
             && (capture.completed.Some? ==> RunOf(s, a).value.exitZero)
    ensures var run := RunOf(s, a).value;
            run.before.Some?
            && Core(WithAgent(s, a, Applying(run.(stage := Captured, capture := Some(capture))))
                 .(meaning := s.meaning[capture.sha := content],
                   captures := s.captures[capture.sha := CaptureFact(a, run.identity, run.selection, run.before.value,
                         capture)]))
  {
    hide Core, FactHolds, RecordFor;
    CoreBounds(s);
    var run := RunOf(s, a).value;
    assert RunInv(s, a, run);
    var t := WithAgent(s, a, Applying(run.(stage := Captured, capture := Some(capture))))
               .(meaning := s.meaning[capture.sha := content],
                 captures := s.captures[capture.sha := CaptureFact(a, run.identity, run.selection, run.before.value,
                       capture)]);
    QuietKeeps(s, t, a);
  }

  lemma PublishedRunInOrder(s: State, a: AgentId, path: string)
    requires Core(s) && PublishResult(s, a, path).Some?
    ensures RunInv(PublishResult(s, a, path).value, a, PublishResult(s, a, path).value.agents[a].run)
  {
    CoreBounds(s);
    hide Core, FactHolds, RecordFor, LocksAgree, FilesSeen;
    assert RunInv(s, a, RunOf(s, a).value);
  }

  /** The digest a run publishes is its own, so no other run's temporary Result becomes visible. */
  lemma PublishedDigestIsOwn(s: State, a: AgentId, path: string)
    requires Core(s) && PublishResult(s, a, path).Some?
    ensures OthersCarry(s, PublishResult(s, a, path).value, a)
  {
    CoreBounds(s);
    hide Core, FactHolds, RecordFor, LocksAgree, FilesSeen, OwnedRecord;
    assert RunInv(s, a, RunOf(s, a).value);
    forall b | b in s.agents && b != a && s.agents[b].Applying? && s.agents[b].run.stage == Captured
      ensures s.agents[b].run.capture.Some? ==>
                s.agents[b].run.capture.value.sha !in PublishResult(s, a, path).value.seen
    {
      assert RunInv(s, b, s.agents[b].run);
    }
  }

  lemma PublishKeeps(s: State, a: AgentId, path: string)
    requires Core(s) && PublishResult(s, a, path).Some?
    ensures Core(PublishResult(s, a, path).value)
  {
    PublishedRunInOrder(s, a, path);
    PublishedDigestIsOwn(s, a, path);
    CoreBounds(s);
    hide Core, FactHolds, RecordFor, RunInv, RunsInv, OthersCarry;
    CoreKeeps(s, PublishResult(s, a, path).value, a);
  }

  lemma StopKeeps(s: State, a: AgentId)
    requires Core(s) && Stop(s, a).Some?
    ensures Core(Stop(s, a).value)
  {
    hide Core, FactHolds, RecordFor;
    CoreBounds(s);
    QuietKeeps(s, Stop(s, a).value, a);
  }

  lemma BeginPassKeeps(s: State, a: AgentId, agent: Agent)
    requires Core(s) && BeginPass(s, a, agent).Some?
    ensures Core(BeginPass(s, a, agent).value)
  {
    hide Core, FactHolds, RecordFor;
    CoreBounds(s);
    QuietKeeps(s, BeginPass(s, a, agent).value, a);
  }

  lemma ScanKeeps(s: State, a: AgentId, path: string)
    requires Core(s) && ScanFile(s, a, path).Some?
    ensures Core(ScanFile(s, a, path).value)
  {
    assert PassInv(s.ledger, s.seen, s.agents[a]) && s.files[path] in s.seen;
    PassMoves(s, a, ScanFile(s, a, path).value.agents[a], s.repos);
  }

  lemma LoadKeeps(s: State, a: AgentId)
    requires Core(s) && LedgerValid(s.ledger) && LoadPending(s, a).Some?
    ensures Core(LoadPending(s, a).value)
  {
    assert PassInv(s.ledger, s.seen, s.agents[a]);
    var agent := LoadPending(s, a).value.agents[a];
    LoadedListIsExact(s, a);
    PassMoves(s, a, agent, s.repos);
  }

  /** Right after the read, every digest missing from an archival list is pinned by nobody. */
  lemma LoadedListIsExact(s: State, a: AgentId)
    requires a in s.agents && PassInv(s.ledger, s.seen, s.agents[a]) && LedgerValid(s.ledger) && LoadPending(s, a).Some?
    ensures PassInv(s.ledger, s.seen, LoadPending(s, a).value.agents[a])
  {
    forall id
      ensures RecordFor(s.ledger, id).Some? ==> RecordFor(s.ledger, id).value in s.ledger
    {
      RecordForFinds(s.ledger, id);
    }
  }

  lemma PassLockKeeps(s: State, a: AgentId)
    requires Core(s) && LockForPass(s, a).Some?
    ensures Core(LockForPass(s, a).value)
  {
    var t := LockForPass(s, a).value;
    var q := s.agents[a].repoId;
    assert PassInv(s.ledger, s.seen, s.agents[a]);
    LockTaken(s.agents, s.repos, a, t.agents[a], q);
    PassMoves(s, a, t.agents[a], s.repos[q := s.repos[q].(lock := Some(a))]);
  }

  lemma PassUnlockKeeps(s: State, a: AgentId)
    requires Core(s) && UnlockPass(s, a).Some?
    ensures Core(UnlockPass(s, a).value)
  {
    var t := UnlockPass(s, a).value;
    var q := s.agents[a].repoId;
    assert PassInv(s.ledger, s.seen, s.agents[a]);
    LockReleased(s.agents, s.repos, a, t.agents[a], q);
    PassMoves(s, a, t.agents[a], s.repos[q := s.repos[q].(lock := None)]);
  }

  lemma MoveKeeps(s: State, a: AgentId, id: Identity)
    requires Core(s) && ArchiveMove(s, a, id).Some?
    ensures Core(ArchiveMove(s, a, id).value)
  {
    assert PassInv(s.ledger, s.seen, s.agents[a]);
    hide Core, RecordFor, ProvenObsolete, PassInv;
    CoreBounds(s);
    QuietKeeps(s, ArchiveMove(s, a, id).value, a);
  }

  lemma PutKeeps(s: State, a: AgentId, path: string, sha: string, content: Content)
    requires Core(s) && UserPut(s, path, sha, content).Some?
    ensures Core(UserPut(s, path, sha, content).value)
  {
    var t := UserPut(s, path, sha, content).value;
    forall b | b in s.agents && s.agents[b].Applying? ensures RunInv(t, b, s.agents[b].run) {
      assert RunOf(s, b) == Some(s.agents[b].run);
      assert RunInv(s, b, s.agents[b].run);
    }
    forall b | b in t.agents ensures PassInv(t.ledger, t.seen, t.agents[b]) {
      assert PassInv(s.ledger, s.seen, s.agents[b]);
    }
  }

  lemma RemoveKeeps(s: State, path: string)
    requires Core(s)
    ensures Core(UserRemove(s, path).value)
  {
    var t := UserRemove(s, path).value;
    forall b | b in s.agents && s.agents[b].Applying? ensures RunInv(t, b, s.agents[b].run) {
      assert RunInv(s, b, s.agents[b].run);
    }
  }

  lemma RepositoryChangeKeeps(s: State, repoId: string, git: Git, context: Context)
    requires Core(s) && RepositoryChange(s, repoId, git, context).Some?
    ensures Core(RepositoryChange(s, repoId, git, context).value)
  {
    var t := RepositoryChange(s, repoId, git, context).value;
    forall b | b in s.agents && s.agents[b].Applying? ensures RunInv(t, b, s.agents[b].run) {
      assert RunInv(s, b, s.agents[b].run);
    }
  }

  // ---------------------------------------------------------------- steps that write one record

  /** The new record of `target` is in order and no live attempt but `a`'s owns it. */
  ghost predicate OneRecordWritten(s: State, t: State, a: AgentId, target: Identity) {
    && (forall id :: id != target ==> RecordFor(t.ledger, id) == RecordFor(s.ledger, id))
    && (forall x | x in t.pins && x != a :: x in s.pins)
    && (forall b | b in s.agents && b != a && s.agents[b].Applying? && InAttempt(s.agents[b].run.stage) ::
          s.agents[b].run.identity != target)
    && RecordFor(t.ledger, target).Some?
    && (var r := RecordFor(t.ledger, target).value;
        && r.identity == target && r.status.Some? && RecordBacked(t, r)
        && (r.runId.Some? ==> r.runId.value in t.used)
        && (PinnedBy(Some(r), r.resultSha.GetOr("")) ==>
              PinnedBy(RecordFor(s.ledger, target), r.resultSha.value) || r.resultSha.value !in s.seen))
  }

  /** Apart from that record, the step changes only `a` and grows the history in step with it. */
  ghost predicate WriteFrame(s: State, t: State, a: AgentId) {
    && SameOthers(s, t, a) && Grows(s, t)
    && t.files == s.files && t.seen == s.seen && t.repos == s.repos && t.used == s.used
    && t.agents.Keys == s.agents.Keys
    && t.autoWrites == s.autoWrites && LocksAgree(t.agents, t.repos) && PinsInv(t) && t.pins.Keys <= t.used
    && (forall e | e in t.autoStarts :: e.runId in t.used)
    && a in t.agents && (t.agents[a] == s.agents[a] || t.agents[a].Applying?)
  }

  lemma RecordWriteKeeps(s: State, t: State, a: AgentId, target: Identity)
    requires Core(s) && WriteFrame(s, t, a) && OneRecordWritten(s, t, a, target)
    requires AutoInv(t)
    requires forall id ::
               id != target && RecordFor(s.ledger, id).Some? ==> RecordBacked(t, RecordFor(s.ledger, id).value)
    requires t.agents[a].Applying? ==> RunInv(t, a, t.agents[a].run)
    ensures Core(t)
  {
    OtherRunsKeep(s, t, a);
    forall b | b in t.agents ensures PassInv(t.ledger, t.seen, t.agents[b]) {
      assert PassInv(s.ledger, s.seen, s.agents[b]);
      if t.agents[b].Archiving? {
        forall sha | sha in s.seen && NonePins(s.ledger, sha) ensures NonePins(t.ledger, sha) {
          forall id ensures !PinnedBy(RecordFor(t.ledger, id), sha) {
            assert !PinnedBy(RecordFor(s.ledger, id), sha);
          }
        }
      }
    }
  }
}
