/** A run that dies between publishing its Result and recording its outcome is repaired by the next pass. */
module ExchangeCrashRecovery {
  import opened Prelude
  import opened Bindings
  import opened ExchangeLedger
  import opened ExchangeProtocol
  import opened ExchangeInvariant
  import opened ExchangeSchedules
  import opened ExchangeTheorems

  /** A live run that has published its pinned Result as `result`, with both files usable and HEAD clean. */
  ghost predicate PublishedAndIntact(s: State, x: AgentId, result: Identity) {
    && RunOf(s, x).Some? && RunOf(s, x).value.stage == Published && RunOf(s, x).value.capture.Some?
    && var run := RunOf(s, x).value;
      && run.capture.value.completed.Some? && run.capture.value.sha == result.sha256
      && Present(s, run.identity) && Present(s, result)
      && run.identity.sha256 in s.meaning && s.meaning[run.identity.sha256].Proves?
      && s.meaning[run.identity.sha256].evidence.kind == PatchPackage
      && s.meaning[run.identity.sha256].evidence.selection == run.selection
      && result.sha256 in s.meaning && s.meaning[result.sha256].Proves?
      && run.selection.repoId in s.repos
      && StillContains(s.repos[run.selection.repoId], s.meaning[result.sha256].evidence, run.selection.baseCommit)
  }

  /** One scan of both files followed by the read of the ledger. */
  function ScanBoth(run: ApplyRun, a: AgentId, result: Identity): seq<Event> {
    [Event(a, PBegin(Recovering(run.selection.repoId, {}, Scanning, {})))]
    + ([Event(a, PScan(run.identity.path))] + ([Event(a, PScan(result.path))] + [Event(a, PLoad)]))
  }

  function ProveAndSwap(x: AgentId, run: ApplyRun, a: AgentId, result: Identity): seq<Event> {
    [Event(a, PLock)] + [Event(a, PRecover(OwnedRecord(x, run), result))]
  }

  /** Crash, then one complete recovery pass by the fresh agent `a`. */
  function CrashAndRecover(x: AgentId, run: ApplyRun, a: AgentId, result: Identity): seq<Event> {
    [Event(x, AStop)] + (ScanBoth(run, a, result) + ProveAndSwap(x, run, a, result))
  }

  /** The crash frees the lock; the ledger, the files and the repositories stay as they were. */
  lemma CrashFreesTheLock(s: State, x: AgentId, run: ApplyRun)
    requires Inv(s) && RunOf(s, x) == Some(run) && run.stage == Published
    ensures var t := Stop(s, x).value;
            && IsFree(t, run.selection.repoId)
            && t == s.(agents := s.agents - {x},
                   repos := s.repos[run.selection.repoId := s.repos[run.selection.repoId].(lock := None)])
  {
    assert RunInv(s, x, run);
  }

  function Listing(t: State, a: AgentId, agent: Agent): State {
    t.(agents := t.agents[a := agent], used := t.used + {a})
  }

  lemma ScanAddsTheFile(t: State, a: AgentId, q: string, scanned: set<Identity>, id: Identity)
    requires Present(t, id)
    ensures Next(Listing(t, a, Recovering(q, scanned, Scanning, {})), a, PScan(id.path))
              == Some(Listing(t, a, Recovering(q, scanned + {id}, Scanning, {})))
  {
    var before := Listing(t, a, Recovering(q, scanned, Scanning, {}));
    assert before.agents[a := Recovering(q, scanned + {id}, Scanning, {})]
      == t.agents[a := Recovering(q, scanned + {id}, Scanning, {})];
    assert Identity(id.path, t.files[id.path]) == id;
  }

  function PendingIn(t: State, q: string): set<Record> {
    set r | r in t.ledger && IsPinnedAttempt(r) && r.manifest.Some? && r.manifest.value.repoId == q
  }

  lemma LoadListsThePending(t: State, a: AgentId, q: string, scanned: set<Identity>)
    ensures Next(Listing(t, a, Recovering(q, scanned, Scanning, {})), a, PLoad)
              == Some(Listing(t, a, Recovering(q, scanned, Loaded, PendingIn(t, q))))
  {
    var before := Listing(t, a, Recovering(q, scanned, Scanning, {}));
    var after := Recovering(q, scanned, Loaded, PendingIn(t, q));
    assert before.agents[a := after] == t.agents[a := after];
  }

  /** The pass has seen both files and lists every pinned attempt of its repository. */
  lemma PassScansAndLoads(t: State, a: AgentId, run: ApplyRun, result: Identity)
    requires a !in t.used && Present(t, run.identity) && Present(t, result)
    ensures var q := run.selection.repoId;
            Execute(t, ScanBoth(run, a, result))
              == Some(Listing(t, a, Recovering(q, {} + {run.identity} + {result}, Loaded, PendingIn(t, q))))
  {
    var q := run.selection.repoId;
    var begin, scan1, scan2, load := Event(a, PBegin(Recovering(q, {}, Scanning, {}))),
      Event(a, PScan(run.identity.path)), Event(a, PScan(result.path)), Event(a, PLoad);
    var t1 := Listing(t, a, Recovering(q, {}, Scanning, {}));
    var t2 := Listing(t, a, Recovering(q, {} + {run.identity}, Scanning, {}));
    var t3 := Listing(t, a, Recovering(q, {} + {run.identity} + {result}, Scanning, {}));
    ExecuteStep(t, begin, [scan1] + ([scan2] + [load]));
    ScanAddsTheFile(t, a, q, {}, run.identity);
    ExecuteStep(t1, scan1, [scan2] + [load]);
    ScanAddsTheFile(t, a, q, {} + {run.identity}, result);
    ExecuteStep(t2, scan2, [load]);
    LoadListsThePending(t, a, q, {} + {run.identity} + {result});
    ExecuteLast(t3, load);
  }

  /** What the pass finds when it has listed the orphan. */
  ghost predicate OrphanListed(u: State, x: AgentId, a: AgentId, run: ApplyRun, result: Identity) {
    && a in u.agents && u.agents[a].Recovering? && u.agents[a].repoId == run.selection.repoId
    && u.agents[a].pass == Loaded
    && run.identity in u.agents[a].scanned && result in u.agents[a].scanned
    && OwnedRecord(x, run) in u.agents[a].pending
    && HasPinned(run) && run.capture.value.sha == result.sha256
    && RecordFor(u.ledger, run.identity) == Some(OwnedRecord(x, run)) && IsFree(u, run.selection.repoId)
    && Present(u, run.identity) && Present(u, result)
    && run.identity.sha256 in u.meaning && u.meaning[run.identity.sha256].Proves?
    && u.meaning[run.identity.sha256].evidence.kind == PatchPackage
    && u.meaning[run.identity.sha256].evidence.selection == run.selection
    && result.sha256 in u.meaning && u.meaning[result.sha256].Proves?
    && StillContains(u.repos[run.selection.repoId], u.meaning[result.sha256].evidence, run.selection.baseCommit)
    && x in u.pins && u.pins[x].capture == run.capture.value
  }

  /** The same with the lock held and the context recorded under it. */
  ghost predicate OrphanUnderLock(v: State, x: AgentId, a: AgentId, run: ApplyRun, result: Identity) {
    && a in v.agents && v.agents[a].Recovering? && v.agents[a].repoId == run.selection.repoId
    && v.agents[a].pass.Proving?
    && run.identity in v.agents[a].scanned && result in v.agents[a].scanned
    && OwnedRecord(x, run) in v.agents[a].pending
    && HasPinned(run) && run.capture.value.sha == result.sha256
    && RecordFor(v.ledger, run.identity) == Some(OwnedRecord(x, run))
    && Present(v, run.identity) && Present(v, result)
    && run.identity.sha256 in v.meaning && v.meaning[run.identity.sha256].Proves?
    && v.meaning[run.identity.sha256].evidence.kind == PatchPackage
    && v.meaning[run.identity.sha256].evidence.selection == run.selection
    && result.sha256 in v.meaning && v.meaning[result.sha256].Proves?
    && run.selection.repoId in v.repos && v.repos[run.selection.repoId].context == v.agents[a].pass.context
    && StillContains(v.repos[run.selection.repoId], v.meaning[result.sha256].evidence, run.selection.baseCommit)
    && x in v.pins && v.pins[x].capture == run.capture.value
  }

  /** Taking the lock leaves everything else, and records the context under it. */
  lemma LockingKeepsTheOrphan(u: State, x: AgentId, a: AgentId, run: ApplyRun, result: Identity)
    requires OrphanListed(u, x, a, run, result)
    ensures LockForPass(u, a).Some?
    ensures OrphanUnderLock(LockForPass(u, a).value, x, a, run, result)
  {
  }

  /** The proof under the lock succeeds and the swap writes the run's completion commit. */
  lemma OrphanUnderLockRecovers(v: State, x: AgentId, a: AgentId, run: ApplyRun, result: Identity)
    requires Reachable(v) && OrphanUnderLock(v, x, a, run, result)
    ensures RecoverAttempt(v, a, OwnedRecord(x, run), result).Some?
    ensures RecordFor(RecoverAttempt(v, a, OwnedRecord(x, run), result).value.ledger, run.identity)
              == Some(OwnedRecord(x, run).(status := Some(Succeeded), completedCommit := run.capture.value.completed))
  {
    IntactOrphanIsRecoverable(v, a, OwnedRecord(x, run), result);
    RecoveryIsSound(v, a, OwnedRecord(x, run), result);
  }

  lemma LockStep(u: State, a: AgentId, v: State)
    requires LockForPass(u, a) == Some(v)
    ensures Execute(u, [Event(a, PLock)]) == Some(v)
  {
    OneStep(u, a, PLock, v);
  }

  lemma SwapStep(v: State, a: AgentId, r: Record, result: Identity, w: State)
    requires RecoverAttempt(v, a, r, result) == Some(w)
    ensures Execute(v, [Event(a, PRecover(r, result))]) == Some(w)
  {
    OneStep(v, a, PRecover(r, result), w);
  }

  lemma ProveAndSwapRuns(u: State, x: AgentId, a: AgentId, run: ApplyRun, result: Identity, v: State, w: State)
    requires LockForPass(u, a) == Some(v) && RecoverAttempt(v, a, OwnedRecord(x, run), result) == Some(w)
    ensures Execute(u, ProveAndSwap(x, run, a, result)) == Some(w)
  {
    LockStep(u, a, v);
    SwapStep(v, a, OwnedRecord(x, run), result, w);
    TwoSteps(u, a, PLock, v, PRecover(OwnedRecord(x, run), result), w);
  }

  lemma LockedPassIsReachable(u: State, a: AgentId, v: State)
    requires Reachable(u) && LockForPass(u, a) == Some(v)
    ensures Reachable(v)
  {
    LockStep(u, a, v);
    AppendedScheduleStaysReachable(u, [Event(a, PLock)], v);
  }

  /** The last two steps: take the lock, prove and swap. */
  lemma ProveAndSwapSucceeds(u: State, x: AgentId, a: AgentId, run: ApplyRun, result: Identity)
    returns (w: State)
    requires Reachable(u) && OrphanListed(u, x, a, run, result)
    ensures Execute(u, ProveAndSwap(x, run, a, result)) == Some(w)
    ensures RecordFor(w.ledger, run.identity)
              == Some(OwnedRecord(x, run).(status := Some(Succeeded), completedCommit := run.capture.value.completed))
  {
    LockingKeepsTheOrphan(u, x, a, run, result);
    var v := LockForPass(u, a).value;
    LockedPassIsReachable(u, a, v);
    OrphanUnderLockRecovers(v, x, a, run, result);
    w := RecoverAttempt(v, a, OwnedRecord(x, run), result).value;
    ProveAndSwapRuns(u, x, a, run, result, v, w);
  }

  /** What a run that has published a pinned Result owns. */
  lemma PublishedRunOwns(s: State, x: AgentId, run: ApplyRun)
    requires Inv(s) && RunOf(s, x) == Some(run) && run.stage == Published
    requires run.capture.Some? && run.capture.value.completed.Some?
    ensures HasPinned(run) && RecordFor(s.ledger, run.identity) == Some(OwnedRecord(x, run))
            && OwnedRecord(x, run) in s.ledger
    ensures x in s.pins && s.pins[x].capture == run.capture.value
  {
    assert RunInv(s, x, run);
    RecordForFinds(s.ledger, run.identity);
  }

  /** The state after the crash and the scan of both files. */
  lemma CrashAndScan(s: State, x: AgentId, a: AgentId, result: Identity, run: ApplyRun) returns (t: State, u: State)
    requires Inv(s) && RunOf(s, x) == Some(run) && run.stage == Published && a !in s.used
    requires Present(s, run.identity) && Present(s, result)
    ensures Stop(s, x) == Some(t) && Execute(t, ScanBoth(run, a, result)) == Some(u)
    ensures u.ledger == s.ledger && u.files == s.files && u.meaning == s.meaning && u.pins == s.pins
    ensures IsFree(u, run.selection.repoId) && run.selection.repoId in s.repos
    ensures u.repos[run.selection.repoId] == s.repos[run.selection.repoId].(lock := None)
    ensures a in u.agents
    ensures u.agents[a] == Recovering(run.selection.repoId, {} + {run.identity} + {result}, Loaded,
                PendingIn(u, run.selection.repoId))
  {
    hide Execute, RecordFor;
    CrashFreesTheLock(s, x, run);
    t := Stop(s, x).value;
    PassScansAndLoads(t, a, run, result);
    u := Execute(t, ScanBoth(run, a, result)).value;
  }

  /** After the crash and the scan, the orphan is listed. */
  lemma OrphanIsListed(s: State, x: AgentId, a: AgentId, result: Identity, run: ApplyRun) returns (t: State, u: State)
    requires Inv(s) && PublishedAndIntact(s, x, result) && a !in s.used && run == RunOf(s, x).value
    ensures Stop(s, x) == Some(t) && Execute(t, ScanBoth(run, a, result)) == Some(u)
    ensures OrphanListed(u, x, a, run, result)
  {
    hide Inv, Execute, RecordFor, Stop;
    PublishedRunOwns(s, x, run);
    t, u := CrashAndScan(s, x, a, result, run);
  }

  lemma StopStep(s: State, x: AgentId, t: State)
    requires Stop(s, x) == Some(t)
    ensures Execute(s, [Event(x, AStop)]) == Some(t)
  {
    OneStep(s, x, AStop, t);
  }

  lemma OrphanOfReachable(s: State, x: AgentId, a: AgentId, result: Identity, run: ApplyRun)
    returns (t: State, u: State)
    requires Reachable(s) && PublishedAndIntact(s, x, result) && a !in s.used && run == RunOf(s, x).value
    ensures Execute(s, [Event(x, AStop)]) == Some(t) && Execute(t, ScanBoth(run, a, result)) == Some(u)
    ensures OrphanListed(u, x, a, run, result)
  {
    ReachableStatesAreSafe(s);
    t, u := OrphanIsListed(s, x, a, result, run);
    StopStep(s, x, t);
  }

  /**
   From every reachable state where a run has published an intact Result, a crash right there followed
   by one recovery pass marks the attempt succeeded with the run's completion commit.
   */
  lemma CrashAfterPublicationRecovers(s: State, x: AgentId, a: AgentId, result: Identity) returns (w: State)
    requires Reachable(s) && PublishedAndIntact(s, x, result) && a !in s.used
    ensures Execute(s, CrashAndRecover(x, RunOf(s, x).value, a, result)) == Some(w)
    ensures var run := RunOf(s, x).value;
            RecordFor(w.ledger, run.identity)
              == Some(OwnedRecord(x, run).(status := Some(Succeeded), completedCommit := run.capture.value.completed))
  {
    var run := RunOf(s, x).value;
    var t, u := OrphanOfReachable(s, x, a, result, run);
    AppendedScheduleStaysReachable(s, [Event(x, AStop)], t);
    AppendedScheduleStaysReachable(t, ScanBoth(run, a, result), u);
    w := ProveAndSwapSucceeds(u, x, a, run, result);
    ThreeParts(s, [Event(x, AStop)], t, ScanBoth(run, a, result), u, ProveAndSwap(x, run, a, result), w);
  }
}
