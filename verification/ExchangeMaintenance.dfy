/**
 The two maintenance loops over one scan, each as one pass of its agent through the protocol. `moves` and
 `answer` are what the checks and the file system replied; the pass is the schedule of its own steps with
 arbitrary events of other agents between any two of them, and that schedule is one the protocol allows.
 */
module ExchangeMaintenance {
  import opened Prelude
  import opened Bindings
  import opened ArchiveGit
  import opened ExchangeLedger
  import opened ExchangeProtocol
  import opened ExchangeInvariant
  import opened ExchangeSchedules
  import opened ExchangeTheorems
  import opened ClassificationCache

  predicate DistinctArtifacts(artifacts: seq<Artifact>) {
    forall i, j | 0 <= i < j < |artifacts| :: artifacts[i].identity != artifacts[j].identity
  }

  function IdentitiesOf(artifacts: seq<Artifact>): (ids: seq<Identity>)
    ensures |ids| == |artifacts|
  {
    seq(|artifacts|, i requires 0 <= i < |artifacts| => artifacts[i].identity)
  }

  function AsSet(ids: seq<Identity>): set<Identity> { set id | id in ids }

  predicate Unrepeated(ids: seq<Identity>) { forall k, l | 0 <= k < l < |ids| :: ids[k] != ids[l] }

  /** Events of others only. */
  predicate Quiet(events: seq<Event>, agent: AgentId) { forall i | 0 <= i < |events| :: events[i].agent != agent }

  // ---------------------------------------------------------------- archival: the loop

  /** What the loop knows about one file before it takes the repository lock. */
  predicate Candidate(
      x: Artifact, repoId: string, excluded: set<string>, pinned: set<string>, evidence: Option<Evidence>)
  {
    && x.kind != Other && x.identity.path !in excluded && x.identity.sha256 !in pinned
    && (x.selection.Some? ==> x.selection.value.repoId == repoId)
    && evidence.Some? && evidence.value.kind == x.kind
    && (x.selection.Some? ==> x.selection == Some(evidence.value.selection))
    && evidence.value.selection.repoId == repoId
  }

  /** The scope of one pass: what it was asked to do, and what it read before it takes the lock. */
  datatype Scope = Scope(
    repoId: string, enabled: bool, excluded: set<string>, pinned: set<string>, evidence: Identity -> Option<Evidence>)

  function CandidateIds(artifacts: seq<Artifact>, scope: Scope): seq<Identity> {
    if artifacts == [] then []
    else
      CandidateIds(artifacts[..|artifacts| - 1], scope)
      + (var x := artifacts[|artifacts| - 1];
         if Candidate(x, scope.repoId, scope.excluded, scope.pinned, scope.evidence(x.identity))
         then [x.identity] else [])
  }

  /** The candidates reached: none without the lock, and no more than `stop` when an error ends the pass. */
  function Reached(artifacts: seq<Artifact>, scope: Scope, available: bool, stop: nat): seq<Identity> {
    var ids := CandidateIds(artifacts, scope);
    if !scope.enabled || !available then [] else if stop < |ids| then ids[..stop] else ids
  }

  function Chosen(ids: seq<Identity>, moves: Identity -> bool): seq<Identity> {
    if ids == [] then []
    else Chosen(ids[..|ids| - 1], moves) + (if moves(ids[|ids| - 1]) then [ids[|ids| - 1]] else [])
  }

  /** The artifacts whose identity was not moved, in their order. */
  function Kept(artifacts: seq<Artifact>, moved: set<Identity>): seq<Artifact> {
    if artifacts == [] then []
    else (if artifacts[0].identity in moved then [] else [artifacts[0]]) + Kept(artifacts[1..], moved)
  }

  // ---------------------------------------------------------------- archival: the pass in the protocol

  /** Each attempt: first whatever others do, then the move if it succeeds. */
  function Tries(agent: AgentId, ids: seq<Identity>, moves: Identity -> bool, gap: Identity -> seq<Event>): seq<Event> {
    if ids == [] then []
    else
      var id := ids[|ids| - 1];
      Tries(agent, ids[..|ids| - 1], moves, gap) + (gap(id) + (if moves(id) then [Event(agent, PArchive(id))] else []))
  }

  /** The whole pass: take the repository lock, try every reached candidate, release the lock. */
  function ArchivalSchedule(
      agent: AgentId, before: seq<Event>, ids: seq<Identity>, moves: Identity -> bool, gap: Identity -> seq<Event>)
    : seq<Event>
  {
    if ids == [] then []
    else before + ([Event(agent, PLock)] + (Tries(agent, ids, moves, gap) + [Event(agent, PUnlock)]))
  }

  /** The files an agent's own events archive, in order. */
  function OwnArchivals(schedule: seq<Event>, agent: AgentId): seq<Identity> {
    if schedule == [] then []
    else
      (if schedule[0].agent == agent && schedule[0].step.PArchive? then [schedule[0].step.id] else [])
      + OwnArchivals(schedule[1..], agent)
  }

  lemma {:induction false} OwnArchivalsOfSum(a: seq<Event>, b: seq<Event>, agent: AgentId)
    ensures OwnArchivals(a + b, agent) == OwnArchivals(a, agent) + OwnArchivals(b, agent)
  {
    if a == [] {
      assert a + b == b;
    } else {
      assert (a + b)[1..] == a[1..] + b;
      OwnArchivalsOfSum(a[1..], b, agent);
    }
  }

  lemma {:induction false} OthersArchiveNothingOfOurs(events: seq<Event>, agent: AgentId)
    requires Quiet(events, agent)
    ensures OwnArchivals(events, agent) == []
  {
    if events != [] { OthersArchiveNothingOfOurs(events[1..], agent); }
  }

  lemma {:induction false} TriesArchiveTheChosen(
      agent: AgentId, ids: seq<Identity>, moves: Identity -> bool, gap: Identity -> seq<Event>)
    requires forall id :: Quiet(gap(id), agent)
    ensures OwnArchivals(Tries(agent, ids, moves, gap), agent) == Chosen(ids, moves)
  {
    if ids != [] {
      var id := ids[|ids| - 1];
      var move := if moves(id) then [Event(agent, PArchive(id))] else [];
      TriesArchiveTheChosen(agent, ids[..|ids| - 1], moves, gap);
      OthersArchiveNothingOfOurs(gap(id), agent);
      OwnArchivalsOfSum(Tries(agent, ids[..|ids| - 1], moves, gap), gap(id) + move, agent);
      OwnArchivalsOfSum(gap(id), move, agent);
    }
  }

  /** The pass archives exactly the chosen candidates, by its own events. */
  lemma PassArchivesTheChosen(
    agent: AgentId, before: seq<Event>, ids: seq<Identity>, moves: Identity -> bool, gap: Identity -> seq<Event>)
    requires Quiet(before, agent) && forall id :: Quiet(gap(id), agent)
    ensures OwnArchivals(ArchivalSchedule(agent, before, ids, moves, gap), agent) == Chosen(ids, moves)
  {
    if ids != [] {
      var tries := Tries(agent, ids, moves, gap);
      OwnArchivalsOfSum(before, [Event(agent, PLock)] + (tries + [Event(agent, PUnlock)]), agent);
      OwnArchivalsOfSum([Event(agent, PLock)], tries + [Event(agent, PUnlock)], agent);
      OwnArchivalsOfSum(tries, [Event(agent, PUnlock)], agent);
      OthersArchiveNothingOfOurs(before, agent);
      TriesArchiveTheChosen(agent, ids, moves, gap);
      NoArchival(agent);
    }
  }

  lemma NoArchival(agent: AgentId)
    ensures OwnArchivals([Event(agent, PLock)], agent) == [] && OwnArchivals([Event(agent, PUnlock)], agent) == []
  {
  }

  /** The file lies there as scanned, and no pending attempt pins its digest. */
  ghost predicate Unpinned(s: State, id: Identity) {
    && id.path in s.files && s.files[id.path] == id.sha256
    && forall r | r in s.ledger && r.status == Some(Attempted) && r.resultSha.Some? :: r.resultSha.value != id.sha256
  }

  /** The repository the file's bytes name is locked by the agent, and it and the ledger prove the file superseded. */
  ghost predicate ProvenSuperseded(s: State, agent: AgentId, id: Identity) {
    && id.sha256 in s.meaning && s.meaning[id.sha256].Proves?
    && var evidence := s.meaning[id.sha256].evidence;
      && evidence.selection.repoId in s.repos && ValidGit(s.repos[evidence.selection.repoId].git)
      && s.repos[evidence.selection.repoId].lock == Some(agent)
      && Superseded(s.repos[evidence.selection.repoId], evidence, RecordFor(s.ledger, id))
  }

  /** Event `i` moved `id`, in a state in which it was unpinned and proven superseded. */
  ghost predicate MovedRightly(start: State, schedule: seq<Event>, i: nat, agent: AgentId, id: Identity) {
    && i < |schedule| && schedule[i] == Event(agent, PArchive(id)) && Execute(start, schedule[..i]).Some?
    && Unpinned(Execute(start, schedule[..i]).value, id)
    && ProvenSuperseded(Execute(start, schedule[..i]).value, agent, id)
  }

  lemma {:induction false} OwnArchivalHasAnEvent(schedule: seq<Event>, agent: AgentId, id: Identity) returns (i: nat)
    requires id in OwnArchivals(schedule, agent)
    ensures i < |schedule| && schedule[i] == Event(agent, PArchive(id))
  {
    if schedule[0] == Event(agent, PArchive(id)) {
      i := 0;
    } else {
      i := OwnArchivalHasAnEvent(schedule[1..], agent, id);
      i := i + 1;
    }
  }

  /**
   Whatever a pass archives, at that moment no pending attempt pinned it and the locked repository proved it
   superseded, with everything others did meanwhile.
   */
  lemma ArchivedFilesAreSuperseded(start: State, schedule: seq<Event>, agent: AgentId, id: Identity)
    requires Reachable(start) && Execute(start, schedule).Some? && id in OwnArchivals(schedule, agent)
    ensures exists i: nat :: MovedRightly(start, schedule, i, agent, id)
  {
    hide Reachable, Next, Unpinned, ProvenSuperseded;
    var i := OwnArchivalHasAnEvent(schedule, agent, id);
    var before, after := EventWasEnabled(start, schedule, i);
    ArchiveStep(before, agent, id);
    MoveIsRight(before, agent, id);
    assert MovedRightly(start, schedule, i, agent, id);
  }

  lemma MoveIsRight(s: State, agent: AgentId, id: Identity)
    requires Reachable(s) && ArchiveMove(s, agent, id).Some?
    ensures Unpinned(s, id) && ProvenSuperseded(s, agent, id)
  {
    hide Reachable, ArchiveMove, NonePins, Superseded, RecordFor;
    ArchivalSparesPinnedResults(s, agent, id);
    ArchivalIsProven(s, agent, id);
  }

  lemma ArchiveStep(s: State, agent: AgentId, id: Identity)
    requires Next(s, agent, PArchive(id)).Some?
    ensures ArchiveMove(s, agent, id).Some?
  {
    hide ArchiveMove;
  }

  /**
   One archival pass. The lists it works with are those of its agent after the unlocked read of the ledger;
   remaining and archived together are exactly the scanned files, the archived ones are exactly those the
   agent's own events moved, and each was unpinned and proven superseded when it was moved.
   */
  method ArchiveArtifacts(
    artifacts: seq<Artifact>, scope: Scope, available: bool, moves: Identity -> bool, stop: nat,
    ghost agent: AgentId, ghost start: State, ghost before: seq<Event>, ghost gap: Identity -> seq<Event>)
    returns (remaining: seq<Artifact>, archived: seq<Identity>, ghost schedule: seq<Event>)
    requires DistinctArtifacts(artifacts) && Reachable(start) && agent in start.agents
    requires start.agents[agent] == Archiving(scope.repoId, AsSet(IdentitiesOf(artifacts)), Loaded, scope.pinned)
    requires Quiet(before, agent) && forall id :: Quiet(gap(id), agent)
    requires Execute(start,
                 ArchivalSchedule(agent, before, Reached(artifacts, scope, available, stop), moves, gap)).Some?
    ensures schedule == ArchivalSchedule(agent, before, Reached(artifacts, scope, available, stop), moves, gap)
    ensures OwnArchivals(schedule, agent) == archived == Chosen(Reached(artifacts, scope, available, stop), moves)
    ensures forall id | id in archived :: exists i: nat :: MovedRightly(start, schedule, i, agent, id)
    ensures forall id | id in archived :: MayMove(artifacts, scope, id)
    ensures |archived| <= stop && (!scope.enabled || !available ==> archived == [])
    ensures multiset(IdentitiesOf(remaining)) + multiset(archived) == multiset(IdentitiesOf(artifacts))
    ensures remaining == Kept(artifacts, AsSet(archived))
  {
    hide Reachable, Execute, MovedRightly, Reached, Chosen, ArchivalSchedule, OwnArchivals, IdentitiesOf, Kept, MayMove;
    var reached := CandidatesUnderLock(artifacts, scope, available, stop);
    archived := MoveCandidates(reached, moves);
    remaining := KeepUnmoved(artifacts, AsSet(archived));
    schedule := ArchivalSchedule(agent, before, reached, moves, gap);
    PassArchivesTheChosen(agent, before, reached, moves, gap);
    ReachedAreScanned(artifacts, scope, available, stop);
    ChosenAreReached(reached, moves);
    ReachedMayMove(artifacts, scope, available, stop);
    ChosenAreNoMore(reached, moves);
    NothingIsLost(artifacts, archived);
    forall id | id in archived ensures exists i: nat :: MovedRightly(start, schedule, i, agent, id) {
      ArchivedFilesAreSuperseded(start, schedule, agent, id);
    }
  }

  /** The candidates the pass comes to: none without the lock, and those before the error that ends it. */
  method CandidatesUnderLock(artifacts: seq<Artifact>, scope: Scope, available: bool, stop: nat)
    returns (reached: seq<Identity>)
    ensures reached == Reached(artifacts, scope, available, stop)
  {
    var candidates := [];
    if scope.enabled { candidates := CollectCandidates(artifacts, scope); }
    reached := if !available then [] else if stop < |candidates| then candidates[..stop] else candidates;
  }

  method MoveCandidates(ids: seq<Identity>, moves: Identity -> bool) returns (archived: seq<Identity>)
    ensures archived == Chosen(ids, moves)
  {
    archived := [];
    for k := 0 to |ids|
      invariant archived == Chosen(ids[..k], moves)
    {
      assert ids[..k + 1][..k] == ids[..k];
      if moves(ids[k]) { archived := archived + [ids[k]]; }
    }
    assert ids[..|ids|] == ids;
  }

  method CollectCandidates(artifacts: seq<Artifact>, scope: Scope) returns (ids: seq<Identity>)
    ensures ids == CandidateIds(artifacts, scope)
  {
    ids := [];
    for i := 0 to |artifacts|
      invariant ids == CandidateIds(artifacts[..i], scope)
    {
      assert artifacts[..i + 1][..i] == artifacts[..i];
      var x := artifacts[i];
      if Candidate(x, scope.repoId, scope.excluded, scope.pinned, scope.evidence(x.identity)) {
        ids := ids + [x.identity];
      }
    }
    assert artifacts[..|artifacts|] == artifacts;
  }

  method KeepUnmoved(artifacts: seq<Artifact>, moved: set<Identity>) returns (remaining: seq<Artifact>)
    ensures remaining == Kept(artifacts, moved)
  {
    remaining := [];
    assert artifacts[0..] == artifacts;
    for i := 0 to |artifacts|
      invariant remaining + Kept(artifacts[i..], moved) == Kept(artifacts, moved)
    {
      assert artifacts[i..][0] == artifacts[i] && artifacts[i..][1..] == artifacts[i + 1..];
      if artifacts[i].identity !in moved { remaining := remaining + [artifacts[i]]; }
    }
  }

  lemma {:induction false} CandidatesAreScanned(artifacts: seq<Artifact>, scope: Scope)
    requires DistinctArtifacts(artifacts)
    ensures Unrepeated(CandidateIds(artifacts, scope))
    ensures forall id | id in CandidateIds(artifacts, scope) :: id in IdentitiesOf(artifacts)
  {
    if artifacts != [] {
      var front, x := artifacts[..|artifacts| - 1], artifacts[|artifacts| - 1];
      CandidatesAreScanned(front, scope);
      forall id | id in IdentitiesOf(front) ensures id in IdentitiesOf(artifacts) && id != x.identity {
        var i :| 0 <= i < |front| && front[i].identity == id;
        assert IdentitiesOf(artifacts)[i] == id && artifacts[i].identity == id;
      }
      assert IdentitiesOf(artifacts)[|artifacts| - 1] == x.identity;
      UnrepeatedLonger(CandidateIds(front, scope), x.identity);
    }
  }

  lemma UnrepeatedLonger(ids: seq<Identity>, id: Identity)
    requires Unrepeated(ids)
    ensures id !in ids ==> Unrepeated(ids + [id])
  {
  }

  lemma ReachedAreScanned(artifacts: seq<Artifact>, scope: Scope, available: bool, stop: nat)
    requires DistinctArtifacts(artifacts)
    ensures Unrepeated(Reached(artifacts, scope, available, stop))
    ensures forall id | id in Reached(artifacts, scope, available, stop) :: id in IdentitiesOf(artifacts)
  {
    CandidatesAreScanned(artifacts, scope);
  }

  /** A scanned bundle of this repository, read as what it was classified as, neither excluded nor listed as pinned. */
  predicate MayMove(artifacts: seq<Artifact>, scope: Scope, id: Identity) {
    && id.path !in scope.excluded && id.sha256 !in scope.pinned
    && exists i ::
         && 0 <= i < |artifacts| && artifacts[i].identity == id && artifacts[i].kind in {PatchPackage, ResultBundle}
         && scope.evidence(id).Some? && scope.evidence(id).value.kind == artifacts[i].kind
         && scope.evidence(id).value.selection.repoId == scope.repoId
         && artifacts[i].selection in {None, Some(scope.evidence(id).value.selection)}
  }

  lemma {:induction false} CandidatesMayMove(artifacts: seq<Artifact>, scope: Scope)
    ensures forall id | id in CandidateIds(artifacts, scope) :: MayMove(artifacts, scope, id)
  {
    if artifacts != [] {
      var front, x := artifacts[..|artifacts| - 1], artifacts[|artifacts| - 1];
      CandidatesMayMove(front, scope);
      forall id | id in CandidateIds(artifacts, scope) ensures MayMove(artifacts, scope, id) {
        if id in CandidateIds(front, scope) {
          var i :| 0 <= i < |front| && front[i].identity == id && front[i].kind in {PatchPackage, ResultBundle}
            && scope.evidence(id).Some? && scope.evidence(id).value.kind == front[i].kind
            && scope.evidence(id).value.selection.repoId == scope.repoId
            && front[i].selection in {None, Some(scope.evidence(id).value.selection)};
          assert artifacts[i] == front[i];
        } else {
          assert x.identity == id && artifacts[|artifacts| - 1] == x;
        }
      }
    }
  }

  lemma ReachedMayMove(artifacts: seq<Artifact>, scope: Scope, available: bool, stop: nat)
    ensures forall id | id in Reached(artifacts, scope, available, stop) :: MayMove(artifacts, scope, id)
    ensures |Reached(artifacts, scope, available, stop)| <= stop
    ensures !scope.enabled || !available ==> Reached(artifacts, scope, available, stop) == []
  {
    hide MayMove;
    CandidatesMayMove(artifacts, scope);
  }

  lemma {:induction false} ChosenAreNoMore(ids: seq<Identity>, moves: Identity -> bool)
    ensures |Chosen(ids, moves)| <= |ids|
  {
    if ids != [] { ChosenAreNoMore(ids[..|ids| - 1], moves); }
  }

  lemma {:induction false} ChosenAreReached(ids: seq<Identity>, moves: Identity -> bool)
    ensures forall id | id in Chosen(ids, moves) :: id in ids && moves(id)
    ensures forall id | id in ids && moves(id) :: id in Chosen(ids, moves)
    ensures Unrepeated(ids) ==> Unrepeated(Chosen(ids, moves))
  {
    if ids != [] {
      var front, last := ids[..|ids| - 1], ids[|ids| - 1];
      ChosenAreReached(front, moves);
      assert ids == front + [last];
      assert Unrepeated(ids) ==> last !in front;
    }
  }

  lemma CountUnfolds(first: Artifact, rest: seq<Artifact>, id: Identity)
    ensures multiset(IdentitiesOf([first] + rest))[id]
              == (if first.identity == id then 1 else 0) + multiset(IdentitiesOf(rest))[id]
  {
    assert IdentitiesOf([first] + rest) == [first.identity] + IdentitiesOf(rest);
  }

  lemma {:induction false} KeptCount(artifacts: seq<Artifact>, moved: set<Identity>, id: Identity)
    ensures multiset(IdentitiesOf(Kept(artifacts, moved)))[id] == if id in moved
              then 0 else multiset(IdentitiesOf(artifacts))[id]
  {
    hide IdentitiesOf;
    if artifacts == [] {
      assert IdentitiesOf([]) == [];
    } else {
      KeptCount(artifacts[1..], moved, id);
      CountUnfolds(artifacts[0], artifacts[1..], id);
      CountUnfolds(artifacts[0], Kept(artifacts[1..], moved), id);
      assert artifacts == [artifacts[0]] + artifacts[1..];
      assert [] + Kept(artifacts[1..], moved) == Kept(artifacts[1..], moved);
    }
  }

  lemma {:induction false} DistinctCount(ids: seq<Identity>, id: Identity)
    requires Unrepeated(ids)
    ensures multiset(ids)[id] == if id in ids then 1 else 0
  {
    if ids != [] {
      DistinctCount(ids[1..], id);
      assert ids == [ids[0]] + ids[1..];
      assert id in ids <==> id == ids[0] || id in ids[1..];
    }
  }

  /** Remaining and archived together are exactly the scanned files. */
  lemma NothingIsLost(artifacts: seq<Artifact>, archived: seq<Identity>)
    requires DistinctArtifacts(artifacts) && Unrepeated(archived)
    requires forall id | id in archived :: id in IdentitiesOf(artifacts)
    ensures multiset(IdentitiesOf(Kept(artifacts, AsSet(archived)))) + multiset(archived)
              == multiset(IdentitiesOf(artifacts))
  {
    var moved := AsSet(archived);
    forall id
      ensures (multiset(IdentitiesOf(Kept(artifacts, moved))) + multiset(archived))[id]
                == multiset(IdentitiesOf(artifacts))[id]
    {
      KeptCount(artifacts, moved, id);
      DistinctCount(archived, id);
      DistinctCount(IdentitiesOf(artifacts), id);
    }
  }

  /** The scan's classifications and the evidence read from the files say what the digests mean. */
  predicate ReadsTheMeaning(
      artifacts: seq<Artifact>, evidence: Identity -> Option<Evidence>, meaning: map<string, Content>)
  {
    forall i | 0 <= i < |artifacts| && artifacts[i].identity.sha256 in meaning
        && meaning[artifacts[i].identity.sha256].Proves? ::
      var proved := meaning[artifacts[i].identity.sha256].evidence;
      && evidence(artifacts[i].identity) == Some(proved) && artifacts[i].kind == proved.kind
      && (artifacts[i].selection.Some? ==> artifacts[i].selection == Some(proved.selection))
  }

  lemma ScannedArtifact(artifacts: seq<Artifact>, id: Identity) returns (i: nat)
    requires id in AsSet(IdentitiesOf(artifacts))
    ensures i < |artifacts| && artifacts[i].identity == id
  {
    i :| 0 <= i < |IdentitiesOf(artifacts)| && IdentitiesOf(artifacts)[i] == id;
  }

  /** The loop misses nothing: a move the protocol allows its agent is a candidate, unless the path is excluded. */
  lemma EveryAllowedMoveIsACandidate(s: State, agent: AgentId, artifacts: seq<Artifact>, scope: Scope, id: Identity)
    requires ArchiveMove(s, agent, id).Some? && ReadsTheMeaning(artifacts, scope.evidence, s.meaning)
    requires s.agents[agent].Archiving? && s.agents[agent].repoId == scope.repoId
    requires s.agents[agent].scanned == AsSet(IdentitiesOf(artifacts)) && s.agents[agent].pinned == scope.pinned
    ensures id.path in scope.excluded || exists i ::
      0 <= i < |artifacts| && artifacts[i].identity == id
      && Candidate(artifacts[i], scope.repoId, scope.excluded, scope.pinned, scope.evidence(id))
  {
    var i := ScannedArtifact(artifacts, id);
    ProvenEvidenceIsABundle(s, agent, id);
    assert id.path !in scope.excluded ==>
      Candidate(artifacts[i], scope.repoId, scope.excluded, scope.pinned, scope.evidence(id));
  }

  lemma ProvenEvidenceIsABundle(s: State, agent: AgentId, id: Identity)
    requires ArchiveMove(s, agent, id).Some?
    ensures id.sha256 in s.meaning && s.meaning[id.sha256].Proves? && s.meaning[id.sha256].evidence.kind != Other
  {
  }

  // ---------------------------------------------------------------- recovery: the loop

  datatype Attempt = Attempt(r: Record, result: Identity)

  /** Not tried under the lock, tried and not proven, or recovered. */
  datatype Answer = Skipped | Unproven | Recovered

  function InScope(rs: seq<Record>, repoId: string): seq<Record> {
    if rs == [] then []
    else
      InScope(rs[..|rs| - 1], repoId)
      + (var r := rs[|rs| - 1];
         if IsPinnedAttempt(r) && r.manifest.Some? && r.manifest.value.repoId == repoId then [r] else [])
  }

  function ArtifactFor(artifacts: seq<Artifact>, id: Identity): Option<Artifact> {
    if artifacts == [] then None
    else if artifacts[0].identity == id then Some(artifacts[0])
    else ArtifactFor(artifacts[1..], id)
  }

  /** The scanned Results with one digest, in scan order. */
  function ResultsWith(artifacts: seq<Artifact>, sha: string): seq<Identity> {
    if artifacts == [] then []
    else
      ResultsWith(artifacts[..|artifacts| - 1], sha)
      + (var x := artifacts[|artifacts| - 1];
         if x.kind == ResultBundle && x.identity.sha256 == sha then [x.identity] else [])
  }

  /** The copies tried for one record: in order, up to the first that recovers it. */
  function AttemptsOn(answer: Attempt -> Answer, r: Record, results: seq<Identity>): seq<Attempt> {
    if results == [] then []
    else
      var x := Attempt(r, results[0]);
      [x] + (if answer(x) == Recovered then [] else AttemptsOn(answer, r, results[1..]))
  }

  function AttemptsFor(artifacts: seq<Artifact>, answer: Attempt -> Answer, r: Record): seq<Attempt> {
    var patch := ArtifactFor(artifacts, r.identity);
    if patch.None? || patch.value.kind != PatchPackage || r.resultSha.None? then []
    else AttemptsOn(answer, r, ResultsWith(artifacts, r.resultSha.value))
  }

  function AttemptsOf(artifacts: seq<Artifact>, answer: Attempt -> Answer, pending: seq<Record>): seq<Attempt> {
    if pending == [] then []
    else
      AttemptsOf(artifacts, answer, pending[..|pending| - 1]) + AttemptsFor(artifacts, answer, pending[|pending| - 1])
  }

  function Successes(answer: Attempt -> Answer, attempts: seq<Attempt>): seq<Attempt> {
    if attempts == [] then []
    else (if answer(attempts[0]) == Recovered then [attempts[0]] else []) + Successes(answer, attempts[1..])
  }

  /** After a recovery the scan's packages show the status the ledger has by then. */
  function Refreshed(x: Artifact, latest: seq<Record>): Artifact {
    if x.kind == PatchPackage && RecordFor(latest, x.identity).Some?
    then x.(status := RecordFor(latest, x.identity).value.status) else x
  }

  // ---------------------------------------------------------------- recovery: the pass in the protocol

  /** What others do before an attempt and while it holds the lock. */
  datatype Meanwhile = Meanwhile(outside: seq<Event>, inside: seq<Event>)

  function Swap(agent: AgentId, x: Attempt, answer: Answer): seq<Event> {
    if answer == Recovered then [Event(agent, PRecover(x.r, x.result))] else []
  }

  function AttemptEvents(agent: AgentId, x: Attempt, answer: Answer, others: Meanwhile): seq<Event> {
    if answer == Skipped then others.outside
    else others.outside + ([Event(agent, PLock)] + (others.inside + (Swap(agent, x, answer) + [Event(agent, PUnlock)])))
  }

  function RecoverySchedule(
      agent: AgentId, attempts: seq<Attempt>, answer: Attempt -> Answer, others: Attempt -> Meanwhile)
    : seq<Event>
  {
    if attempts == [] then []
    else AttemptEvents(agent, attempts[0], answer(attempts[0]), others(attempts[0]))
         + RecoverySchedule(agent, attempts[1..], answer, others)
  }

  /** The attempts an agent's own events recover, in order. */
  function OwnRecoveries(schedule: seq<Event>, agent: AgentId): seq<Attempt> {
    if schedule == [] then []
    else
      (if schedule[0].agent == agent && schedule[0].step.PRecover?
       then [Attempt(schedule[0].step.r, schedule[0].step.result)] else [])
      + OwnRecoveries(schedule[1..], agent)
  }

  lemma {:induction false} OwnRecoveriesOfSum(a: seq<Event>, b: seq<Event>, agent: AgentId)
    ensures OwnRecoveries(a + b, agent) == OwnRecoveries(a, agent) + OwnRecoveries(b, agent)
  {
    if a == [] {
      assert a + b == b;
    } else {
      assert (a + b)[1..] == a[1..] + b;
      OwnRecoveriesOfSum(a[1..], b, agent);
    }
  }

  lemma {:induction false} OthersRecoverNothingOfOurs(events: seq<Event>, agent: AgentId)
    requires Quiet(events, agent)
    ensures OwnRecoveries(events, agent) == []
  {
    if events != [] { OthersRecoverNothingOfOurs(events[1..], agent); }
  }

  lemma SwapAlone(agent: AgentId, x: Attempt, answer: Answer)
    ensures OwnRecoveries(Swap(agent, x, answer), agent) == if answer == Recovered then [x] else []
    ensures OwnRecoveries([Event(agent, PLock)], agent) == [] && OwnRecoveries([Event(agent, PUnlock)], agent) == []
  {
  }

  lemma AttemptRecoversItself(agent: AgentId, x: Attempt, answer: Answer, others: Meanwhile)
    requires Quiet(others.outside, agent) && Quiet(others.inside, agent)
    ensures OwnRecoveries(AttemptEvents(agent, x, answer, others), agent) == if answer == Recovered then [x] else []
  {
    hide OwnRecoveries, Swap;
    OthersRecoverNothingOfOurs(others.outside, agent);
    OthersRecoverNothingOfOurs(others.inside, agent);
    SwapAlone(agent, x, answer);
    var lock, unlock, swap := [Event(agent, PLock)], [Event(agent, PUnlock)], Swap(agent, x, answer);
    OwnRecoveriesOfSum(others.outside, lock + (others.inside + (swap + unlock)), agent);
    OwnRecoveriesOfSum(lock, others.inside + (swap + unlock), agent);
    OwnRecoveriesOfSum(others.inside, swap + unlock, agent);
    OwnRecoveriesOfSum(swap, unlock, agent);
  }

  /** The pass recovers exactly its successful attempts, by its own events. */
  lemma {:induction false} PassRecoversTheSuccesses(
    agent: AgentId, attempts: seq<Attempt>, answer: Attempt -> Answer, others: Attempt -> Meanwhile)
    requires forall x :: Quiet(others(x).outside, agent) && Quiet(others(x).inside, agent)
    ensures OwnRecoveries(RecoverySchedule(agent, attempts, answer, others), agent) == Successes(answer, attempts)
  {
    if attempts != [] {
      var x := attempts[0];
      AttemptRecoversItself(agent, x, answer(x), others(x));
      PassRecoversTheSuccesses(agent, attempts[1..], answer, others);
      OwnRecoveriesOfSum(AttemptEvents(agent, x, answer(x), others(x)),
          RecoverySchedule(agent, attempts[1..], answer, others), agent);
    }
  }

  /**
   The package and the pinned Result lie there with their bytes, and the locked repository contains the commit of the
   run, with the Result's inventory as its tree.
   */
  ghost predicate RecoverableNow(s: State, agent: AgentId, x: Attempt)
    requires HonestPin(s, x.r)
  {
    var result, fact := x.result, s.pins[x.r.runId.value];
    && x.r.status == Some(Attempted) && RecordFor(s.ledger, x.r.identity) == Some(x.r)
    && x.r.identity.path in s.files && s.files[x.r.identity.path] == x.r.identity.sha256
    && result.path in s.files && s.files[result.path] == result.sha256 && x.r.resultSha == Some(result.sha256)
    && result.sha256 in s.meaning && s.meaning[result.sha256].Proves?
    && s.meaning[result.sha256].evidence.selection.baseCommit == fact.capture.head.baseCommit
    && fact.selection.repoId in s.repos && s.repos[fact.selection.repoId].lock == Some(agent)
    && StillContains(s.repos[fact.selection.repoId], s.meaning[result.sha256].evidence, fact.selection.baseCommit)
  }

  /**
   Event `i` recovered `x`: the record names a run that exited zero and pinned exactly the bytes then published, the
   repository still contains that run's commit, and the ledger right after carries the success with it.
   */
  ghost predicate RecoveredHonestly(start: State, schedule: seq<Event>, i: nat, agent: AgentId, x: Attempt) {
    && i < |schedule| && schedule[i] == Event(agent, PRecover(x.r, x.result))
    && Execute(start, schedule[..i]).Some? && Execute(start, schedule[..i + 1]).Some?
    && var before, after := Execute(start, schedule[..i]).value, Execute(start, schedule[..i + 1]).value;
      && HonestPin(before, x.r) && RecoverableNow(before, agent, x)
      && RecordFor(after.ledger, x.r.identity)
           == Some(x.r.(status := Some(Succeeded), completedCommit := before.pins[x.r.runId.value].capture.completed))
  }

  lemma {:induction false} OwnRecoveryHasAnEvent(schedule: seq<Event>, agent: AgentId, x: Attempt) returns (i: nat)
    requires x in OwnRecoveries(schedule, agent)
    ensures i < |schedule| && schedule[i] == Event(agent, PRecover(x.r, x.result))
  {
    if schedule[0] == Event(agent, PRecover(x.r, x.result)) {
      i := 0;
    } else {
      i := OwnRecoveryHasAnEvent(schedule[1..], agent, x);
      i := i + 1;
    }
  }

  lemma RecoverStep(s: State, agent: AgentId, x: Attempt, t: State)
    requires Next(s, agent, PRecover(x.r, x.result)) == Some(t)
    ensures RecoverAttempt(s, agent, x.r, x.result) == Some(t)
  {
    hide RecoverAttempt;
  }

  lemma RecoveryIsPossible(s: State, agent: AgentId, x: Attempt)
    requires Reachable(s) && RecoverAttempt(s, agent, x.r, x.result).Some?
    ensures HonestPin(s, x.r) && RecoverableNow(s, agent, x)
  {
    hide Reachable, Inv, RecoverAttempt, RecordFor, HonestPin, StillContains, InAttempt, HeldRepo, Present;
    RecoveryIsSound(s, agent, x.r, x.result);
    ReachableStatesAreSafe(s);
    RecoveryFindsTheCommit(s, agent, x.r, x.result);
    PinIsOfItsRecord(s, x.r);
    RecoveryRechecks(s, agent, x.r, x.result);
    RecoveryIsScoped(s, agent, x.r, x.result);
  }

  /** Everything a pass turns into a success is honest, with everything others did meanwhile. */
  lemma EveryRecoveryIsHonest(start: State, schedule: seq<Event>, agent: AgentId, x: Attempt)
    requires Reachable(start) && Execute(start, schedule).Some? && x in OwnRecoveries(schedule, agent)
    ensures exists i: nat :: RecoveredHonestly(start, schedule, i, agent, x)
  {
    hide Reachable, Next;
    var i := OwnRecoveryHasAnEvent(schedule, agent, x);
    var before, after := EventWasEnabled(start, schedule, i);
    RecoverStep(before, agent, x, after);
    hide RecoverAttempt, RecordFor, HonestPin, RecoverableNow;
    RecoveryIsSound(before, agent, x.r, x.result);
    RecoveryIsPossible(before, agent, x);
    assert RecoveredHonestly(start, schedule, i, agent, x);
  }

  /**
   One recovery pass over the ledger snapshot `loaded`, whose pending records are those of its agent; its
   own events recover exactly `done`, honestly. `latest` is the ledger at the end, if it can be read.
   */
  method RecoverArtifacts(
    artifacts: seq<Artifact>, repoId: string, loaded: seq<Record>, latest: Option<seq<Record>>,
    answer: Attempt -> Answer,
    ghost agent: AgentId, ghost start: State, ghost others: Attempt -> Meanwhile, ghost trailing: seq<Event>)
    returns (updated: seq<Artifact>, done: seq<Attempt>, ghost schedule: seq<Event>)
    requires Reachable(start) && agent in start.agents
    requires start.agents[agent]
               == Recovering(repoId, AsSet(IdentitiesOf(artifacts)), Loaded, set r | r in InScope(loaded, repoId))
    requires forall x :: Quiet(others(x).outside, agent) && Quiet(others(x).inside, agent)
    requires var pass := RecoverySchedule(agent, AttemptsOf(artifacts, answer, InScope(loaded, repoId)), answer,
                 others);
             && Execute(start, pass).Some? && Execute(start, pass + trailing).Some?
             && (latest.Some? ==> latest.value == Execute(start, pass + trailing).value.ledger)
    ensures schedule == RecoverySchedule(agent, AttemptsOf(artifacts, answer, InScope(loaded, repoId)), answer, others)
    ensures OwnRecoveries(schedule, agent) == done
    ensures forall x | x in done :: exists i: nat :: RecoveredHonestly(start, schedule, i, agent, x)
    ensures forall x | x in done :: ScannedBoth(artifacts, x)
    ensures |updated| == |artifacts|
    ensures done == [] || latest.None? ==> updated == artifacts
    ensures done != [] && latest.Some? ==>
              forall i | 0 <= i < |artifacts| ::
                var record := RecordFor(Execute(start, schedule + trailing).value.ledger, artifacts[i].identity);
                updated[i] == if artifacts[i].kind == PatchPackage && record.Some?
                              then artifacts[i].(status := record.value.status) else artifacts[i]
  {
    hide Reachable, Execute, RecoveredHonestly, RecordFor, Refreshed, AttemptsOf, Successes, RecoverySchedule;
    hide OwnRecoveries, ScannedBoth;
    hide InScope, ResultsWith, IdentitiesOf;
    var pending := PendingRecords(loaded, repoId);
    var results := ResultsByDigest(artifacts);
    ghost var attempts := AttemptsOf(artifacts, answer, pending);
    schedule := RecoverySchedule(agent, attempts, answer, others);
    done := RecoverAll(artifacts, results, answer, pending);
    PassRecoversTheSuccesses(agent, attempts, answer, others);
    forall x | x in done ensures exists i: nat :: RecoveredHonestly(start, schedule, i, agent, x) {
      EveryRecoveryIsHonest(start, schedule, agent, x);
    }
    if done == [] || latest.None? { return artifacts, done, schedule; }
    updated := RefreshStatuses(artifacts, latest.value);
  }

  method RefreshStatuses(artifacts: seq<Artifact>, latest: seq<Record>) returns (updated: seq<Artifact>)
    ensures |updated| == |artifacts|
    ensures forall i | 0 <= i < |artifacts| ::
              var record := RecordFor(latest, artifacts[i].identity);
              updated[i] == if artifacts[i].kind == PatchPackage && record.Some?
                            then artifacts[i].(status := record.value.status) else artifacts[i]
  {
    updated := [];
    for i := 0 to |artifacts|
      invariant |updated| == i && forall k | 0 <= k < i :: updated[k] == Refreshed(artifacts[k], latest)
    {
      updated := updated + [Refreshed(artifacts[i], latest)];
    }
  }

  method PendingRecords(loaded: seq<Record>, repoId: string) returns (pending: seq<Record>)
    ensures pending == InScope(loaded, repoId)
    ensures forall r :: r in pending <==>
              && r in loaded && r.status == Some(Attempted) && r.runId.Some? && r.resultSha.Some?
              && r.manifest.Some? && r.manifest.value.repoId == repoId
  {
    pending := [];
    for i := 0 to |loaded|
      invariant pending == InScope(loaded[..i], repoId)
      invariant forall r :: r in pending <==>
                  && r in loaded[..i] && r.status == Some(Attempted) && r.runId.Some? && r.resultSha.Some?
                  && r.manifest.Some? && r.manifest.value.repoId == repoId
    {
      assert loaded[..i + 1][..i] == loaded[..i];
      var r := loaded[i];
      if IsPinnedAttempt(r) && r.manifest.Some? && r.manifest.value.repoId == repoId { pending := pending + [r]; }
    }
    assert loaded[..|loaded|] == loaded;
  }

  /** The table of scanned Results by digest. */
  method ResultsByDigest(artifacts: seq<Artifact>) returns (results: map<string, seq<Identity>>)
    ensures forall sha :: (if sha in results then results[sha] else []) == ResultsWith(artifacts, sha)
  {
    results := map[];
    for i := 0 to |artifacts|
      invariant forall sha :: (if sha in results then results[sha] else []) == ResultsWith(artifacts[..i], sha)
    {
      assert artifacts[..i + 1][..i] == artifacts[..i];
      var x := artifacts[i];
      if x.kind == ResultBundle {
        var sha := x.identity.sha256;
        results := results[sha := (if sha in results then results[sha] else []) + [x.identity]];
      }
    }
    assert artifacts[..|artifacts|] == artifacts;
  }

  method RecoverAll(
      artifacts: seq<Artifact>, results: map<string, seq<Identity>>, answer: Attempt -> Answer, pending: seq<Record>)
    returns (done: seq<Attempt>)
    requires forall sha :: (if sha in results then results[sha] else []) == ResultsWith(artifacts, sha)
    ensures done == Successes(answer, AttemptsOf(artifacts, answer, pending))
    ensures forall x | x in done :: x.r in pending && ScannedBoth(artifacts, x) && answer(x) == Recovered
  {
    hide AttemptsFor, ScannedBoth;
    done := [];
    for i := 0 to |pending|
      invariant done == Successes(answer, AttemptsOf(artifacts, answer, pending[..i]))
      invariant forall x | x in done :: x.r in pending && ScannedBoth(artifacts, x) && answer(x) == Recovered
    {
      assert pending[..i + 1][..i] == pending[..i];
      var one := RecoverRecord(artifacts, results, answer, pending[i]);
      SuccessesOfSum(answer, AttemptsOf(artifacts, answer, pending[..i]), AttemptsFor(artifacts, answer, pending[i]));
      done := done + one;
    }
    assert pending[..|pending|] == pending;
  }

  lemma SuccessesUnfold(answer: Attempt -> Answer, attempts: seq<Attempt>)
    requires attempts != []
    ensures Successes(answer, attempts)
              == (if answer(attempts[0]) == Recovered then [attempts[0]] else []) + Successes(answer, attempts[1..])
  {
  }

  lemma {:induction false} SuccessesOfSum(answer: Attempt -> Answer, a: seq<Attempt>, b: seq<Attempt>)
    ensures Successes(answer, a + b) == Successes(answer, a) + Successes(answer, b)
  {
    if a == [] {
      assert Successes(answer, a) == [];
      assert a + b == b;
    } else {
      assert (a + b)[0] == a[0] && (a + b)[1..] == a[1..] + b;
      SuccessesOfSum(answer, a[1..], b);
      SuccessesUnfold(answer, a);
      SuccessesUnfold(answer, a + b);
    }
  }

  /** Try the copies of the pinned Result one after the other; stop at the first that recovers the record. */
  method RecoverRecord(
      artifacts: seq<Artifact>, results: map<string, seq<Identity>>, answer: Attempt -> Answer, r: Record)
    returns (done: seq<Attempt>)
    requires forall sha :: (if sha in results then results[sha] else []) == ResultsWith(artifacts, sha)
    ensures done == Successes(answer, AttemptsFor(artifacts, answer, r))
    ensures |done| <= 1 && forall x | x in done :: x.r == r && x.result in ResultsWith(artifacts, r.resultSha.GetOr(""))
    ensures forall x | x in done :: ScannedBoth(artifacts, x) && answer(x) == Recovered
    ensures done == [] ==> AllTriedInVain(artifacts, answer, r)
  {
    var patch := ArtifactFor(artifacts, r.identity);
    if patch.None? || patch.value.kind != PatchPackage || r.resultSha.None? { return []; }
    var sha := r.resultSha.value;
    var copies := if sha in results then results[sha] else [];
    assert copies[0..] == copies;
    for i := 0 to |copies|
      invariant Successes(answer, AttemptsOn(answer, r, copies[i..]))
                  == Successes(answer, AttemptsOn(answer, r, copies))
      invariant forall k | 0 <= k < i :: answer(Attempt(r, copies[k])) != Recovered
    {
      assert copies[i..][0] == copies[i] && copies[i..][1..] == copies[i + 1..];
      var x := Attempt(r, copies[i]);
      AttemptUnfolds(answer, r, copies[i..]);
      if answer(x) == Recovered {
        BothAreScanned(artifacts, x);
        return [x];
      }
    }
    return [];
  }

  /** The record's package and a Result with the pinned digest are both among the scanned files. */
  predicate ScannedBoth(artifacts: seq<Artifact>, x: Attempt) {
    && (exists i :: 0 <= i < |artifacts| && artifacts[i].identity == x.r.identity && artifacts[i].kind == PatchPackage)
    && exists k ::
         && 0 <= k < |artifacts| && artifacts[k].identity == x.result && artifacts[k].kind == ResultBundle
         && x.r.resultSha == Some(x.result.sha256)
  }

  lemma {:induction false} LookupIsScanned(artifacts: seq<Artifact>, id: Identity)
    requires ArtifactFor(artifacts, id).Some?
    ensures exists i :: 0 <= i < |artifacts| && artifacts[i].identity == id
                        && artifacts[i] == ArtifactFor(artifacts, id).value
  {
    if artifacts[0].identity == id {
      assert artifacts[0] == ArtifactFor(artifacts, id).value;
    } else {
      LookupIsScanned(artifacts[1..], id);
      var i :| 0 <= i < |artifacts| - 1 && artifacts[1..][i].identity == id
               && artifacts[1..][i] == ArtifactFor(artifacts[1..], id).value;
      assert artifacts[i + 1] == artifacts[1..][i];
    }
  }

  lemma {:induction false} CopyIsScanned(artifacts: seq<Artifact>, sha: string, id: Identity)
    requires id in ResultsWith(artifacts, sha)
    ensures id.sha256 == sha
    ensures exists k :: 0 <= k < |artifacts| && artifacts[k].identity == id && artifacts[k].kind == ResultBundle
  {
    var front, x := artifacts[..|artifacts| - 1], artifacts[|artifacts| - 1];
    if id in ResultsWith(front, sha) {
      CopyIsScanned(front, sha, id);
      var k :| 0 <= k < |front| && front[k].identity == id && front[k].kind == ResultBundle;
      assert artifacts[k] == front[k];
    } else {
      assert artifacts[|artifacts| - 1] == x && x.identity == id;
    }
  }

  lemma BothAreScanned(artifacts: seq<Artifact>, x: Attempt)
    requires ArtifactFor(artifacts, x.r.identity).Some?
    requires ArtifactFor(artifacts, x.r.identity).value.kind == PatchPackage
    requires x.r.resultSha.Some? && x.result in ResultsWith(artifacts, x.r.resultSha.value)
    ensures ScannedBoth(artifacts, x)
  {
    LookupIsScanned(artifacts, x.r.identity);
    CopyIsScanned(artifacts, x.r.resultSha.value, x.result);
  }

  /** No scanned copy of the pinned Result recovers the record. */
  predicate AllTriedInVain(artifacts: seq<Artifact>, answer: Attempt -> Answer, r: Record) {
    var patch := ArtifactFor(artifacts, r.identity);
    patch.Some? && patch.value.kind == PatchPackage && r.resultSha.Some? ==>
      forall id | id in ResultsWith(artifacts, r.resultSha.value) :: answer(Attempt(r, id)) != Recovered
  }

  lemma AttemptUnfolds(answer: Attempt -> Answer, r: Record, copies: seq<Identity>)
    requires copies != []
    ensures var x := Attempt(r, copies[0]);
            Successes(answer, AttemptsOn(answer, r, copies)) ==
            if answer(x) == Recovered then [x] else Successes(answer, AttemptsOn(answer, r, copies[1..]))
  {
    var x := Attempt(r, copies[0]);
    if answer(x) == Recovered {
      assert AttemptsOn(answer, r, copies) == [x] && [x][1..] == [];
    } else {
      assert AttemptsOn(answer, r, copies)[1..] == AttemptsOn(answer, r, copies[1..]);
    }
  }

  lemma {:induction false} FoundArtifact(artifacts: seq<Artifact>, i: nat)
    requires DistinctArtifacts(artifacts) && i < |artifacts|
    ensures ArtifactFor(artifacts, artifacts[i].identity) == Some(artifacts[i])
  {
    if i > 0 {
      FoundArtifact(artifacts[1..], i - 1);
      assert artifacts[0].identity != artifacts[i].identity;
    }
  }

  lemma {:induction false} FoundResult(artifacts: seq<Artifact>, i: nat)
    requires i < |artifacts| && artifacts[i].kind == ResultBundle
    ensures artifacts[i].identity in ResultsWith(artifacts, artifacts[i].identity.sha256)
  {
    if i < |artifacts| - 1 { FoundResult(artifacts[..|artifacts| - 1], i); }
  }

  /** The loop misses nothing: a swap the protocol allows its agent is one of the pairs it goes through. */
  lemma EveryAllowedRecoveryIsConsidered(
    s: State, agent: AgentId, artifacts: seq<Artifact>, loaded: seq<Record>, evidence: Identity -> Option<Evidence>,
    x: Attempt)
    requires DistinctArtifacts(artifacts) && RecoverAttempt(s, agent, x.r, x.result).Some?
    requires ReadsTheMeaning(artifacts, evidence, s.meaning) && s.agents[agent].Recovering?
    requires s.agents[agent].scanned == AsSet(IdentitiesOf(artifacts))
    requires s.agents[agent].pending == set r | r in InScope(loaded, s.agents[agent].repoId)
    ensures x.r in InScope(loaded, s.agents[agent].repoId) && x.r.resultSha.Some?
    ensures ArtifactFor(artifacts, x.r.identity).Some?
            && ArtifactFor(artifacts, x.r.identity).value.kind == PatchPackage
    ensures x.result in ResultsWith(artifacts, x.r.resultSha.value)
  {
    RecoveryEvidence(s, agent, x);
    var i := ScannedArtifact(artifacts, x.r.identity);
    FoundArtifact(artifacts, i);
    var k := ScannedArtifact(artifacts, x.result);
    FoundResult(artifacts, k);
  }

  lemma RecoveryEvidence(s: State, agent: AgentId, x: Attempt)
    requires RecoverAttempt(s, agent, x.r, x.result).Some? && s.agents[agent].Recovering?
    ensures x.r in s.agents[agent].pending && x.r.resultSha == Some(x.result.sha256)
    ensures x.r.identity in s.agents[agent].scanned && x.result in s.agents[agent].scanned
    ensures x.r.identity.sha256 in s.meaning && s.meaning[x.r.identity.sha256].Proves?
            && s.meaning[x.r.identity.sha256].evidence.kind == PatchPackage
    ensures x.result.sha256 in s.meaning && s.meaning[x.result.sha256].Proves?
            && s.meaning[x.result.sha256].evidence.kind == ResultBundle
  {
  }
}
