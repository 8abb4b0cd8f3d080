/** One archival pass that nobody disturbs takes a superseded file away; and what the outside world is free to do. */
module ExchangeArchival {
  import opened Prelude
  import opened Bindings
  import opened ArchiveGit
  import opened ExchangeLedger
  import opened ExchangeProtocol
  import opened ExchangeInvariant
  import opened ExchangeSchedules
  import opened ExchangeTheorems

  /** A present, unpinned file that its free repository proves superseded. */
  ghost predicate ReadyToArchive(s: State, a: AgentId, id: Identity) {
    && a !in s.used && id.path in s.files && s.files[id.path] == id.sha256
    && id.sha256 !in PinnedDigests(s.ledger)
    && id.sha256 in s.meaning && s.meaning[id.sha256].Proves?
    && var evidence := s.meaning[id.sha256].evidence;
      && evidence.selection.repoId in s.repos && s.repos[evidence.selection.repoId].lock.None?
      && ValidGit(s.repos[evidence.selection.repoId].git)
      && Superseded(s.repos[evidence.selection.repoId], evidence, RecordFor(s.ledger, id))
  }

  function PinnedDigests(ledger: seq<Record>): set<string> {
    set r | r in ledger && r.status == Some(Attempted) && r.resultSha.Some? :: r.resultSha.value
  }

  /** The state with one pass in it. */
  function WithPass(s: State, a: AgentId, agent: Agent, lock: Option<AgentId>, files: map<string, string>): State
    requires agent.Archiving? && agent.repoId in s.repos
  {
    s.(agents := s.agents[a := agent], used := s.used + {a}, files := files,
       repos := s.repos[agent.repoId := s.repos[agent.repoId].(lock := lock)])
  }

  lemma PassBegins(s: State, a: AgentId, q: string)
    requires a !in s.used && q in s.repos && s.repos[q].lock.None?
    ensures Next(s, a, PBegin(Archiving(q, {}, Scanning, {})))
              == Some(WithPass(s, a, Archiving(q, {}, Scanning, {}), None, s.files))
  {
    assert s.repos[q := s.repos[q].(lock := None)] == s.repos;
  }

  lemma PassScans(s: State, a: AgentId, q: string, id: Identity)
    requires q in s.repos && id.path in s.files && s.files[id.path] == id.sha256
    ensures Next(WithPass(s, a, Archiving(q, {}, Scanning, {}), None, s.files), a, PScan(id.path))
              == Some(WithPass(s, a, Archiving(q, {id}, Scanning, {}), None, s.files))
  {
    var before := WithPass(s, a, Archiving(q, {}, Scanning, {}), None, s.files);
    assert {} + {id} == {id} && Identity(id.path, s.files[id.path]) == id;
    assert before.agents[a := Archiving(q, {id}, Scanning, {})] == s.agents[a := Archiving(q, {id}, Scanning, {})];
  }

  lemma PassLoads(s: State, a: AgentId, q: string, id: Identity)
    requires q in s.repos
    ensures Next(WithPass(s, a, Archiving(q, {id}, Scanning, {}), None, s.files), a, PLoad)
              == Some(WithPass(s, a, Archiving(q, {id}, Loaded, PinnedDigests(s.ledger)), None, s.files))
  {
    var before := WithPass(s, a, Archiving(q, {id}, Scanning, {}), None, s.files);
    var agent := Archiving(q, {id}, Loaded, PinnedDigests(s.ledger));
    assert before.agents[a := agent] == s.agents[a := agent];
  }

  lemma PassLocks(s: State, a: AgentId, q: string, scanned: set<Identity>, pinned: set<string>)
    requires q in s.repos
    ensures Next(WithPass(s, a, Archiving(q, scanned, Loaded, pinned), None, s.files), a, PLock)
              == Some(WithPass(s, a, Archiving(q, scanned, Proving(s.repos[q].context), pinned), Some(a), s.files))
  {
    var before := WithPass(s, a, Archiving(q, scanned, Loaded, pinned), None, s.files);
    var agent := Archiving(q, scanned, Proving(s.repos[q].context), pinned);
    assert before.agents[a := agent] == s.agents[a := agent];
    assert before.repos[q := before.repos[q].(lock := Some(a))] == s.repos[q := s.repos[q].(lock := Some(a))];
  }

  lemma PassArchives(s: State, a: AgentId, q: string, id: Identity)
    requires ReadyToArchive(s, a, id) && q == s.meaning[id.sha256].evidence.selection.repoId
    requires s.repos[q].context.repoId == q
    ensures var agent := Archiving(q, {id}, Proving(s.repos[q].context), PinnedDigests(s.ledger));
            Next(WithPass(s, a, agent, Some(a), s.files), a, PArchive(id))
              == Some(WithPass(s, a, agent, Some(a), s.files - {id.path}))
  {
    hide Superseded, ProvenObsolete, ValidGit, RecordFor;
    var repo := s.repos[q];
    ObsoleteMeansSuperseded(repo, s.meaning[id.sha256].evidence, RecordFor(s.ledger, id));
    SupersededIgnoresLocks(repo, repo.(lock := Some(a)), s.meaning[id.sha256].evidence, RecordFor(s.ledger, id));
  }

  lemma SupersededIgnoresLocks(repo: Repository, other: Repository, evidence: Evidence, record: Option<Record>)
    requires ValidGit(repo.git) && other.git == repo.git && other.context == repo.context
    ensures Superseded(repo, evidence, record) <==> Superseded(other, evidence, record)
  {
  }

  lemma PassUnlocks(
      s: State, a: AgentId, q: string, scanned: set<Identity>, pinned: set<string>, files: map<string, string>)
    requires q in s.repos
    ensures Next(WithPass(s, a, Archiving(q, scanned, Proving(s.repos[q].context), pinned), Some(a), files), a, PUnlock)
              == Some(WithPass(s, a, Archiving(q, scanned, Loaded, pinned), None, files))
  {
    var before := WithPass(s, a, Archiving(q, scanned, Proving(s.repos[q].context), pinned), Some(a), files);
    var agent := Archiving(q, scanned, Loaded, pinned);
    assert before.agents[a := agent] == s.agents[a := agent];
    assert before.repos[q := before.repos[q].(lock := None)] == s.repos[q := s.repos[q].(lock := None)];
  }

  lemma PassStops(s: State, a: AgentId, q: string, agent: Agent, files: map<string, string>)
    requires a !in s.agents && q in s.repos && s.repos[q].lock.None? && agent.Archiving? && agent.repoId == q
    requires agent.pass == Loaded
    ensures Next(WithPass(s, a, agent, None, files), a, AStop) == Some(s.(used := s.used + {a}, files := files))
  {
    assert s.agents[a := agent] - {a} == s.agents;
    assert s.repos[q := s.repos[q].(lock := None)] == s.repos;
  }

  /** Scan one file, read the ledger, take the lock, archive, let go, and end. */
  function ArchivalOf(a: AgentId, q: string, id: Identity): seq<Event> {
    [Event(a, PBegin(Archiving(q, {}, Scanning, {})))]
    + ([Event(a, PScan(id.path))] + ([Event(a, PLoad)] + ([Event(a, PLock)] + ([Event(a, PArchive(id))]
    + ([Event(a, PUnlock)] + [Event(a, AStop)])))))
  }

  lemma FirstThen(s: State, e: Event, t: State, rest: seq<Event>, u: State)
    requires Next(s, e.agent, e.step) == Some(t) && Execute(t, rest) == Some(u)
    ensures Execute(s, [e] + rest) == Some(u)
  {
    hide Next;
    ExecuteStep(s, e, rest);
  }

  /**
   From every reachable state, one pass of a new agent archives a superseded and unpinned file of a free repository, and
   leaves everything else as it was: the ledger, the repository and its lock, every other file and agent.
   */
  lemma UndisturbedPassArchives(s: State, a: AgentId, id: Identity)
    requires Reachable(s) && ReadyToArchive(s, a, id)
    ensures Execute(s, ArchivalOf(a, s.meaning[id.sha256].evidence.selection.repoId, id))
              == Some(s.(used := s.used + {a}, files := s.files - {id.path}))
  {
    hide Reachable, Inv, Next, Execute, Superseded, RecordFor;
    var q, pinned := s.meaning[id.sha256].evidence.selection.repoId, PinnedDigests(s.ledger);
    var files := s.files - {id.path};
    var proving := Archiving(q, {id}, Proving(s.repos[q].context), pinned);
    ReachableStatesAreSafe(s);
    StateIsOrderly(s, a, q);
    PassBegins(s, a, q);
    PassScans(s, a, q, id);
    PassLoads(s, a, q, id);
    PassLocks(s, a, q, {id}, pinned);
    PassArchives(s, a, q, id);
    PassUnlocks(s, a, q, {id}, pinned, files);
    PassStops(s, a, q, Archiving(q, {id}, Loaded, pinned), files);
    var end := s.(used := s.used + {a}, files := files);
    var unlocked := WithPass(s, a, Archiving(q, {id}, Loaded, pinned), None, files);
    var archived := WithPass(s, a, proving, Some(a), files);
    var locked := WithPass(s, a, proving, Some(a), s.files);
    var loaded := WithPass(s, a, Archiving(q, {id}, Loaded, pinned), None, s.files);
    var scanned := WithPass(s, a, Archiving(q, {id}, Scanning, {}), None, s.files);
    var begun := WithPass(s, a, Archiving(q, {}, Scanning, {}), None, s.files);
    OneStep(unlocked, a, AStop, end);
    var tail := [Event(a, AStop)];
    FirstThen(archived, Event(a, PUnlock), unlocked, tail, end);
    tail := [Event(a, PUnlock)] + tail;
    FirstThen(locked, Event(a, PArchive(id)), archived, tail, end);
    tail := [Event(a, PArchive(id))] + tail;
    FirstThen(loaded, Event(a, PLock), locked, tail, end);
    tail := [Event(a, PLock)] + tail;
    FirstThen(scanned, Event(a, PLoad), loaded, tail, end);
    tail := [Event(a, PLoad)] + tail;
    FirstThen(begun, Event(a, PScan(id.path)), scanned, tail, end);
    tail := [Event(a, PScan(id.path))] + tail;
    FirstThen(s, Event(a, PBegin(Archiving(q, {}, Scanning, {}))), begun, tail, end);
  }

  lemma StateIsOrderly(s: State, a: AgentId, q: string)
    requires Inv(s) && q in s.repos && a !in s.used
    ensures s.repos[q].context.repoId == q && a !in s.agents
  {
  }

  // ---------------------------------------------------------------- the outside world

  /** Some run has captured these bytes and neither pinned nor published them. */
  predicate Kept(s: State, sha: string) {
    exists b :: b in s.agents && s.agents[b].Applying? && s.agents[b].run.stage == Captured
                && s.agents[b].run.capture.Some? && s.agents[b].run.capture.value.sha == sha
  }

  lemma KeptIsPrivate(s: State, sha: string)
    ensures IsPrivate(s, sha) <==> Kept(s, sha)
  {
    if IsPrivate(s, sha) {
      var b :| b in s.agents && RunOf(s, b).Some? && RunOf(s, b).value.stage == Captured
               && RunOf(s, b).value.capture.Some? && RunOf(s, b).value.capture.value.sha == sha;
      assert s.agents[b].Applying? && s.agents[b].run.capture.value.sha == sha;
    }
    if Kept(s, sha) {
      var b :| b in s.agents && s.agents[b].Applying? && s.agents[b].run.stage == Captured
               && s.agents[b].run.capture.Some? && s.agents[b].run.capture.value.sha == sha;
      assert RunOf(s, b) == Some(s.agents[b].run);
    }
  }

  /**
   Nothing holds the outside world back: anyone may put any bytes anywhere, except those of a captured and still private
   Result; remove any file; and bring a repository into any state, at any time and under any lock.
   */
  lemma TheOutsideIsFree(
      s: State, a: AgentId, path: string, sha: string, content: Content, q: string, git: Git, context: Context)
    ensures Next(s, a, URemove(path)) == Some(s.(files := s.files - {path}))
    ensures Next(s, a, UPut(path, sha, content)) ==
            if Kept(s, sha) then None
            else Some(s.(files := s.files[path := sha], seen := s.seen + {sha},
                         meaning := if sha in s.meaning then s.meaning else s.meaning[sha := content]))
    ensures q in s.repos && ValidGit(git) && context.repoId == q ==>
              Next(s, a, URepository(q, git, context))
                == Some(s.(repos := s.repos[q := Repository(git, context, s.repos[q].lock)]))
  {
    hide ValidGit, IsPrivate, Kept;
    KeptIsPrivate(s, sha);
  }

  /** Any agent may end at any moment; only its lock, if it has one, goes with it. */
  lemma AnyoneMayStop(s: State, a: AgentId)
    requires Reachable(s) && a in s.agents
    ensures Next(s, a, AStop).Some?
    ensures var t := Next(s, a, AStop).value;
            && t == s.(agents := s.agents - {a}, repos := t.repos) && t.repos.Keys == s.repos.Keys
            && forall q | q in s.repos ::
                 t.repos[q] == if s.repos[q].lock == Some(a) && HeldRepo(s.agents[a]) == Some(q)
                               then s.repos[q].(lock := None) else s.repos[q]
  {
    hide Reachable, HeldRepo, Inv;
    ReachableStatesAreSafe(s);
    HolderHasTheLock(s, a);
  }

  lemma HolderHasTheLock(s: State, a: AgentId)
    requires Inv(s) && a in s.agents
    ensures HeldRepo(s.agents[a]).Some? ==>
              HeldRepo(s.agents[a]).value in s.repos && s.repos[HeldRepo(s.agents[a]).value].lock == Some(a)
  {
    hide RunsInv, PassesInv, RecordsBacked, PinsInv, AutoInv, FactsInv, LedgerValid;
  }

  /** Anyone else may hold a free repository lock, and a scan may publish any classifications that agree. */
  lemma OthersMayWork(s: State, a: AgentId, q: string, candidates: seq<Record>)
    requires LedgerValid(s.ledger)
    ensures a !in s.used && q in s.repos && s.repos[q].lock.None? ==>
              Next(s, a, PBegin(Holding(q)))
                == Some(s.(agents := s.agents[a := Holding(q)], used := s.used + {a},
                           repos := s.repos[q := s.repos[q].(lock := Some(a))]))
    ensures Next(s, a, PMerge(candidates)).Some? <==>
              && (forall i | 0 <= i < |candidates| :: RecordValid(candidates[i]) && candidates[i].status.None?)
              && !Conflicts(s.ledger, candidates)
    ensures Next(s, a, PMerge(candidates)).Some? ==>
              Next(s, a, PMerge(candidates)) == Some(s.(ledger := After(s.ledger, Merge(candidates))))
  {
    hide Conflicts, RecordValid, MergeCandidates;
    MergeRefusedIffConflict(s.ledger, candidates);
  }
}
