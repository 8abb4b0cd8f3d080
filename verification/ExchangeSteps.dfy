/** Every step of the Exchange protocol keeps its invariant, so every reachable state has it. */
module ExchangeSteps {
  import opened Prelude
  import opened Bindings
  import opened ExchangeLedger
  import opened ExchangeProtocol
  import opened ExchangeInvariant

  /** Exclusion: a repository's lock has one holder among the live agents. */
  lemma OneHolder(s: State, a: AgentId, b: AgentId)
    requires LocksAgree(s.agents, s.repos) && a in s.agents && b in s.agents
    requires HeldRepo(s.agents[a]).Some? && HeldRepo(s.agents[a]) == HeldRepo(s.agents[b])
    ensures a == b
  {
  }

  /** Whoever holds the lock of a package's repository shares its record with no live attempt. */
  lemma LockExcludesOtherOwners(s: State, a: AgentId, id: Identity)
    requires Core(s) && a in s.agents
    requires RecordFor(s.ledger, id).Some? && RecordFor(s.ledger, id).value.manifest.Some?
    requires HeldRepo(s.agents[a]) == Some(RecordFor(s.ledger, id).value.manifest.value.repoId)
    ensures forall b | b in s.agents && b != a && s.agents[b].Applying? && InAttempt(s.agents[b].run.stage) ::
              s.agents[b].run.identity != id
  {
    forall b | b in s.agents && b != a && s.agents[b].Applying? && InAttempt(s.agents[b].run.stage)
      ensures s.agents[b].run.identity != id
    {
      assert RunInv(s, b, s.agents[b].run);
      if s.agents[b].run.identity == id {
        assert HeldRepo(s.agents[b]) == HeldRepo(s.agents[a]);
        OneHolder(s, a, b);
      }
    }
  }

  lemma AttemptKeeps(s: State, a: AgentId)
    requires Core(s) && LedgerValid(s.ledger) && RecordAttempt(s, a).Some?
    ensures Core(RecordAttempt(s, a).value)
  {
    AttemptFrame(s, a);
    AttemptedRunInOrder(s, a);
    AttemptRecordInOrder(s, a);
    AttemptKeepsAutoStarts(s, a);
    BackingOutlivesRuns(s, RecordAttempt(s, a).value);
    hide Core, RunInv, RecordBacked, OneRecordWritten, WriteFrame, AutoInv;
    RecordWriteKeeps(s, RecordAttempt(s, a).value, a, RunOf(s, a).value.identity);
  }

  /** Records stay backed as long as the pins and the clean exits they rest on do. */
  lemma BackingOutlivesRuns(s: State, t: State)
    requires Core(s) && t.pins == s.pins && s.exitedZero <= t.exitedZero
    ensures forall id :: RecordFor(s.ledger, id).Some? ==> RecordBacked(t, RecordFor(s.ledger, id).value)
  {
    forall id | RecordFor(s.ledger, id).Some? ensures RecordBacked(t, RecordFor(s.ledger, id).value) {
      assert RecordBacked(s, RecordFor(s.ledger, id).value);
    }
  }

  lemma AttemptFrame(s: State, a: AgentId)
    requires Core(s) && LedgerValid(s.ledger) && RecordAttempt(s, a).Some?
    ensures WriteFrame(s, RecordAttempt(s, a).value, a)
  {
    assert NamesUsed(s) && PinsInv(s) && AutoInv(s);
    hide Core, RunInv, RunsInv, RecordsBacked, PassesInv, FilesSeen, RecordFor, Apply;
  }

  lemma AttemptedRunInOrder(s: State, a: AgentId)
    requires Core(s) && LedgerValid(s.ledger) && RecordAttempt(s, a).Some?
    ensures RunInv(RecordAttempt(s, a).value, a, RecordAttempt(s, a).value.agents[a].run)
  {
    assert RunInv(s, a, RunOf(s, a).value);
    LifecycleEffect(s.ledger, StartOp(RunOf(s, a).value, a));
    hide Core, RecordFor, LedgerValid, FactHolds;
  }

  lemma AttemptRecordInOrder(s: State, a: AgentId)
    requires Core(s) && LedgerValid(s.ledger) && RecordAttempt(s, a).Some?
    ensures OneRecordWritten(s, RecordAttempt(s, a).value, a, RunOf(s, a).value.identity)
  {
    assert RunInv(s, a, RunOf(s, a).value);
    LifecycleEffect(s.ledger, StartOp(RunOf(s, a).value, a));
    LockExcludesOtherOwners(s, a, RunOf(s, a).value.identity);
    hide RunsInv, RunInv, PinsInv, RecordsBacked, PassesInv, AutoInv, FilesSeen, RecordFor, LedgerValid;
  }

  /** An automatic start is only accepted for a package that was never attempted. */
  lemma AttemptKeepsAutoStarts(s: State, a: AgentId)
    requires Core(s) && LedgerValid(s.ledger) && RecordAttempt(s, a).Some?
    ensures AutoInv(RecordAttempt(s, a).value)
  {
    LifecycleEffect(s.ledger, StartOp(RunOf(s, a).value, a));
    hide RunsInv, RunInv, PinsInv, RecordsBacked, PassesInv, FilesSeen, RecordFor, LedgerValid, NamesUsed, LocksAgree;
  }

  /** A terminal rewrite of the owner's record: what it may say. */
  ghost predicate Settles(s: State, a: AgentId, run: ApplyRun, next: seq<Record>, r: Record) {
    && RunOf(s, a).Some? && InAttempt(RunOf(s, a).value.stage) && run == RunOf(s, a).value.(stage := Settled)
    && RecordFor(s.ledger, run.identity).Some?
    && RecordFor(next, run.identity) == Some(r)
    && (forall id :: id != run.identity ==> RecordFor(next, id) == RecordFor(s.ledger, id))
    && r.identity == run.identity && r.runId == Some(a) && r.status in {Some(Failed), Some(Succeeded)}
    && r.manifest == Some(run.selection) && (r.status == Some(Succeeded) ==> run.exitZero)
    && (r.resultSha.Some? ==> r.resultSha == RecordFor(s.ledger, run.identity).value.resultSha)
  }

  lemma SettledFrame(s: State, a: AgentId, run: ApplyRun, next: seq<Record>, r: Record)
    requires Core(s) && Settles(s, a, run, next, r)
    ensures WriteFrame(s, WithAgent(s, a, Applying(run)).(ledger := next), a)
  {
    assert NamesUsed(s) && PinsInv(s);
    LockKept(s.agents, s.repos, a, Applying(run));
    hide Core, LocksAgree, RunInv, RunsInv, RecordsBacked, PassesInv, FilesSeen, RecordFor, AutoInv;
  }

  lemma SettledRunInOrder(s: State, a: AgentId, run: ApplyRun, next: seq<Record>, r: Record)
    requires Core(s) && Settles(s, a, run, next, r)
    ensures RunInv(WithAgent(s, a, Applying(run)).(ledger := next), a, run)
  {
    assert RunInv(s, a, RunOf(s, a).value);
    hide Core, RecordFor, FactHolds;
  }

  lemma SettledRecordInOrder(s: State, a: AgentId, run: ApplyRun, next: seq<Record>, r: Record)
    requires Core(s) && Settles(s, a, run, next, r)
    ensures OneRecordWritten(s, WithAgent(s, a, Applying(run)).(ledger := next), a, run.identity)
    ensures AutoInv(WithAgent(s, a, Applying(run)).(ledger := next))
  {
    assert RunInv(s, a, RunOf(s, a).value);
    LockExcludesOtherOwners(s, a, run.identity);
    assert RecordBacked(s, RecordFor(s.ledger, run.identity).value);
  }

  lemma OwnerWrites(s: State, a: AgentId, run: ApplyRun, next: seq<Record>, r: Record)
    requires Core(s) && Settles(s, a, run, next, r)
    ensures Core(WithAgent(s, a, Applying(run)).(ledger := next))
  {
    SettledFrame(s, a, run, next, r);
    SettledRunInOrder(s, a, run, next, r);
    SettledRecordInOrder(s, a, run, next, r);
    BackingOutlivesRuns(s, WithAgent(s, a, Applying(run)).(ledger := next));
    hide Core, RunInv, RecordBacked, OneRecordWritten, WriteFrame, AutoInv;
    RecordWriteKeeps(s, WithAgent(s, a, Applying(run)).(ledger := next), a, run.identity);
  }

  lemma PinKeeps(s: State, a: AgentId)
    requires Core(s) && LedgerValid(s.ledger) && PinResult(s, a).Some?
    ensures Core(PinResult(s, a).value)
  {
    var run, t := RunOf(s, a).value, PinResult(s, a).value;
    assert RunInv(s, a, run);
    LifecycleEffect(s.ledger, Pin(run.identity, run.selection, a, run.capture.value.sha));
    PinnedRunInOrder(s, a, t.ledger);
    PinFrame(s, t, a);
    PinnedRecordInOrder(s, a);
    PinBacksTheRest(s, t, a);
    hide Core, RunInv, RecordBacked, OneRecordWritten, WriteFrame, AutoInv, PinResult;
    RecordWriteKeeps(s, t, a, run.identity);
  }

  lemma NewPinIsBacked(s: State, a: AgentId)
    requires Core(s) && PinResult(s, a).Some?
    ensures PinsInv(PinResult(s, a).value)
  {
    assert RunInv(s, a, RunOf(s, a).value);
    hide RunsInv, RecordsBacked, PassesInv, FilesSeen, RecordFor, AutoInv, NamesUsed, LocksAgree, OwnedRecord;
  }

  /** What pinning changes: the agent's stage, the ledger and one pin. */
  lemma PinEffect(s: State, t: State, a: AgentId)
    requires PinResult(s, a) == Some(t)
    ensures RunOf(s, a).Some? && RunOf(s, a).value.before.Some? && RunOf(s, a).value.capture.Some?
    ensures var run := RunOf(s, a).value;
            t == s.(agents := s.agents[a := Applying(run.(stage := Pinned))], ledger := t.ledger,
                    pins := s.pins[a := CaptureFact(a, run.identity, run.selection, run.before.value,
                          run.capture.value)])
    ensures RunOf(s, a).value.stage == Captured
  {
    hide Apply;
  }

  lemma PinFrame(s: State, t: State, a: AgentId)
    requires Core(s) && PinResult(s, a) == Some(t) && a !in s.pins
    ensures WriteFrame(s, t, a)
  {
    NewPinIsBacked(s, a);
    PinEffect(s, t, a);
    PinOnlyAdds(s, t, a, RunOf(s, a).value);
  }

  lemma PinOnlyAdds(s: State, t: State, a: AgentId, run: ApplyRun)
    requires LocksAgree(s.agents, s.repos) && NamesUsed(s) && PinsInv(t) && RunOf(s, a) == Some(run)
             && run.stage == Captured
    requires run.before.Some? && run.capture.Some? && a !in s.pins
    requires t == s.(agents := s.agents[a := Applying(run.(stage := Pinned))], ledger := t.ledger,
                     pins := s.pins[a := CaptureFact(a, run.identity, run.selection, run.before.value,
                           run.capture.value)])
    ensures WriteFrame(s, t, a)
  {
    LockKept(s.agents, s.repos, a, t.agents[a]);
    hide LocksAgree, PinsInv, RecordFor;
  }

  lemma PinnedRecordInOrder(s: State, a: AgentId)
    requires Core(s) && LedgerValid(s.ledger) && PinResult(s, a).Some?
    ensures OneRecordWritten(s, PinResult(s, a).value, a, RunOf(s, a).value.identity)
    ensures AutoInv(PinResult(s, a).value)
  {
    var run := RunOf(s, a).value;
    assert RunInv(s, a, run);
    LifecycleEffect(s.ledger, Pin(run.identity, run.selection, a, run.capture.value.sha));
    LockExcludesOtherOwners(s, a, run.identity);
  }

  lemma PinnedRunInOrder(s: State, a: AgentId, next: seq<Record>)
    requires Core(s) && PinResult(s, a).Some? && next == PinResult(s, a).value.ledger
    requires var run := RunOf(s, a).value;
             RecordFor(next, run.identity) == Some(Updated(RecordFor(s.ledger, run.identity).value,
                                                           Pin(run.identity, run.selection, a, run.capture.value.sha)))
    ensures a !in s.pins && RunInv(PinResult(s, a).value, a, PinResult(s, a).value.agents[a].run)
  {
    assert RunInv(s, a, RunOf(s, a).value);
  }

  lemma PinBacksTheRest(s: State, t: State, a: AgentId)
    requires Core(s) && a !in s.pins && PinResult(s, a) == Some(t)
    ensures forall id :: RecordFor(s.ledger, id).Some? ==> RecordBacked(t, RecordFor(s.ledger, id).value)
  {
    forall id | RecordFor(s.ledger, id).Some? ensures RecordBacked(t, RecordFor(s.ledger, id).value) {
      assert RecordBacked(s, RecordFor(s.ledger, id).value);
    }
  }

  lemma OutcomeKeeps(s: State, a: AgentId)
    requires Core(s) && LedgerValid(s.ledger) && RecordOutcome(s, a).Some?
    ensures Core(RecordOutcome(s, a).value)
  {
    var run := RunOf(s, a).value;
    SettleKeeps(s, a, run, Completion(s, run));
    CompletionsAreFree(WithAgent(s, a,
          Applying(run.(stage := Settled))).(ledger := After(s.ledger, OutcomeOp(s, run, a))),
                       s.completions + NewCompletion(s, run, a));
  }

  /** A terminal outcome of the owner, whatever completion commit it carries. */
  lemma SettleKeeps(s: State, a: AgentId, run: ApplyRun, commit: Option<CommitId>)
    requires Core(s) && LedgerValid(s.ledger) && RunOf(s, a) == Some(run)
             && run.stage in {Exited, Captured, Pinned, Published}
    requires Apply(s.ledger,
                 Finish(run.identity, run.selection, if run.exitZero then Succeeded else Failed, commit, Some(a))).Ok?
    ensures Core(WithAgent(s, a, Applying(run.(stage := Settled)))
                   .(ledger := After(s.ledger,
                         Finish(run.identity, run.selection, if run.exitZero then Succeeded else Failed, commit,
                             Some(a)))))
  {
    var op := Finish(run.identity, run.selection, if run.exitZero then Succeeded else Failed, commit, Some(a));
    assert RunInv(s, a, run);
    LifecycleEffect(s.ledger, op);
    OwnerWrites(s, a, run.(stage := Settled), After(s.ledger, op),
        Updated(RecordFor(s.ledger, run.identity).value, op));
  }

  /** What the recovery proof says about the record it is about to swap. */
  lemma RecoveredRecordIsScoped(s: State, a: AgentId, r: Record, result: Identity)
    requires Core(s) && LedgerValid(s.ledger) && RecoverAttempt(s, a, r, result).Some?
    ensures RecordFor(s.ledger, r.identity) == Some(r) && IsPinnedAttempt(r) && RecordBacked(s, r)
    ensures r.manifest.Some? && HeldRepo(s.agents[a]) == Some(r.manifest.value.repoId) && s.agents[a].Recovering?
  {
    assert PassInv(s.ledger, s.seen, s.agents[a]);
    assert RecordBacked(s, RecordFor(s.ledger, r.identity).value);
  }

  lemma RecoverKeeps(s: State, a: AgentId, r: Record, result: Identity)
    requires Core(s) && LedgerValid(s.ledger) && RecoverAttempt(s, a, r, result).Some?
    ensures Core(RecoverAttempt(s, a, r, result).value)
  {
    RecoveredRecordIsScoped(s, a, r, result);
    SwapKeeps(s, a, r, s.meaning[result.sha256].evidence.receipt.value.completedCommit);
  }

  lemma SwapFrame(s: State, t: State, a: AgentId)
    requires Core(s) && a in s.agents && t == s.(ledger := t.ledger)
    ensures WriteFrame(s, t, a)
  {
  }

  /** The compare-and-swap itself, under the lock of the record's repository. */
  lemma SwapKeeps(s: State, a: AgentId, r: Record, completed: CommitId)
    requires Core(s) && LedgerValid(s.ledger) && Apply(s.ledger, Recover(r, completed)).Ok?
    requires a in s.agents && s.agents[a].Recovering? && r.manifest.Some?
             && HeldRepo(s.agents[a]) == Some(r.manifest.value.repoId)
    ensures Core(s.(ledger := After(s.ledger, Recover(r, completed))))
  {
    var t := s.(ledger := After(s.ledger, Recover(r, completed)));
    LifecycleEffect(s.ledger, Recover(r, completed));
    assert RecordBacked(s, RecordFor(s.ledger, r.identity).value);
    LockExcludesOtherOwners(s, a, r.identity);
    BackingOutlivesRuns(s, t);
    SwapFrame(s, t, a);
    hide RunInv, PinsInv, RecordsBacked, PassesInv, FilesSeen, RunsInv, WriteFrame, RecordFor;
    RecordWriteKeeps(s, t, a, r.identity);
  }

  lemma MergeKeeps(s: State, candidates: seq<Record>)
    requires Core(s) && LedgerValid(s.ledger) && MergeScan(s, candidates).Some?
    ensures Core(MergeScan(s, candidates).value) && LedgerValid(MergeScan(s, candidates).value.ledger)
  {
    var t := MergeScan(s, candidates).value;
    MergeKeepsKnownAndAddsFirst(s.ledger, candidates);
    MergeKeepsValidity(s.ledger, candidates);
    forall id | RecordFor(t.ledger, id).Some?
      ensures RecordFor(t.ledger, id).value.identity == id
      ensures RecordFor(s.ledger, id).Some?
                || (RecordFor(t.ledger, id).value.status.None? && RecordValid(RecordFor(t.ledger, id).value))
    {
      RecordForFinds(t.ledger, id);
      RecordForFinds(candidates, id);
    }
    forall b | b in s.agents && s.agents[b].Applying? ensures RunInv(t, b, s.agents[b].run) {
      assert RunInv(s, b, s.agents[b].run);
    }
    forall b | b in t.agents ensures PassInv(t.ledger, t.seen, t.agents[b]) {
      assert PassInv(s.ledger, s.seen, s.agents[b]);
      forall sha | NonePins(s.ledger, sha) ensures NonePins(t.ledger, sha) {
        forall id ensures !PinnedBy(RecordFor(t.ledger, id), sha) { assert !PinnedBy(RecordFor(s.ledger, id), sha); }
      }
    }
  }
}
